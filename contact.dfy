/** The values stored in and read from the `contact` table. */
module ContactModel {

  datatype Option<+T> = None | Some(value: T)

  /** The relationship categories offered by the picker of the creation form. */
  datatype Relationship =
    | Son | Daughter | Sister | Brother | Friend | Neighbor | BestFriend
    | Boyfriend | Girlfriend | Husband | Father | Mother | Auntie | Uncle
    | Cousin | Niece | Nephew | GrandSon | GrandDaughter | GrandFather
    | GrandMother | GodFather | GodMother

  /** The text the picker stores in the `option` column for a category. */
  function Label(r: Relationship): string
  {
    match r
    case Son => "SON"
    case Daughter => "DAUGHTER"
    case Sister => "SISTER"
    case Brother => "BROTHER"
    case Friend => "FRIEND"
    case Neighbor => "NEIGHBOR"
    case BestFriend => "BESTFRIEND"
    case Boyfriend => "BOYFRIEND"
    case Girlfriend => "GIRLFRIEND"
    case Husband => "HUSBAND"
    case Father => "FATHER"
    case Mother => "MOTHER"
    case Auntie => "AUNTIE"
    case Uncle => "UNCLE"
    case Cousin => "COUSIN"
    case Niece => "NIECE"
    case Nephew => "NEPHEW"
    case GrandSon => "GRAND-SON"
    case GrandDaughter => "GRAND-DAUGHTER"
    case GrandFather => "GRAND-FATHER"
    case GrandMother => "GRAND-MOTHER"
    case GodFather => "GOD-FATHER"
    case GodMother => "GOD-MOTHER"
  }

  /** Reads an `option` column back into a category; any other text is no
      category. Rows in this model hold the category itself, so this function
      only documents how the column encodes it: the text stored for a row `c`
      is `Label(c.option)`, and LabelRoundTrip reads it back. */
  function ParseLabel(s: string): (r: Option<Relationship>)
    ensures r.Some? ==> Label(r.value) == s
    ensures r.None? ==> forall q :: Label(q) != s
  {
    if s == "SON" then Some(Son)
    else if s == "DAUGHTER" then Some(Daughter)
    else if s == "SISTER" then Some(Sister)
    else if s == "BROTHER" then Some(Brother)
    else if s == "FRIEND" then Some(Friend)
    else if s == "NEIGHBOR" then Some(Neighbor)
    else if s == "BESTFRIEND" then Some(BestFriend)
    else if s == "BOYFRIEND" then Some(Boyfriend)
    else if s == "GIRLFRIEND" then Some(Girlfriend)
    else if s == "HUSBAND" then Some(Husband)
    else if s == "FATHER" then Some(Father)
    else if s == "MOTHER" then Some(Mother)
    else if s == "AUNTIE" then Some(Auntie)
    else if s == "UNCLE" then Some(Uncle)
    else if s == "COUSIN" then Some(Cousin)
    else if s == "NIECE" then Some(Niece)
    else if s == "NEPHEW" then Some(Nephew)
    else if s == "GRAND-SON" then Some(GrandSon)
    else if s == "GRAND-DAUGHTER" then Some(GrandDaughter)
    else if s == "GRAND-FATHER" then Some(GrandFather)
    else if s == "GRAND-MOTHER" then Some(GrandMother)
    else if s == "GOD-FATHER" then Some(GodFather)
    else if s == "GOD-MOTHER" then Some(GodMother)
    else None
  }

  /** Storing a category as text and reading it back gives the same category. */
  lemma LabelRoundTrip(r: Relationship)
    ensures ParseLabel(Label(r)) == Some(r)
  {
  }

  /** No two categories share a label, and no label is empty, so a chosen
      category is never mistaken for the empty initial selection. */
  lemma {:induction false} LabelsDistinct(a: Relationship, b: Relationship)
    ensures Label(a) == Label(b) ==> a == b
    ensures Label(a) != ""
  {
    LabelRoundTrip(a);
    LabelRoundTrip(b);
  }

  /** One row of the `contact` table. `date` is the instant that `new Date(..)`
      makes of the stored ISO-8601 text, in milliseconds since the epoch, or
      None when that text denotes no instant (an invalid date). */
  datatype Contact = Contact(
    id: nat,
    name: string,
    date: Option<int>,
    option: Relationship,
    imageUri: Option<string>)
}

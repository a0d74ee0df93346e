/** The creation form: four fields, a loading flag, and the submit handler
    that validates the fields, inserts one row and resets the form. */
module HomeScreen {
  import opened ContactModel
  import opened ContactStore

  /** What a press of the submit button came to. */
  datatype SubmitOutcome =
    | Rejected                     // a field was empty; an alert was shown
    | Submitted(id: nat)           // the row was inserted under this id
    | Failed(error: StoreError)    // the insert threw; the error was logged

  /** JavaScript truthiness of the three checked fields: `!name`,
      `!selectedOption` and `!imageUri` hold for `""` and for `null`. */
  predicate FieldsFilled(name: string, option: Option<Relationship>, imageUri: Option<string>)
  {
    name != "" && option.Some? && imageUri.Some? && imageUri.value != ""
  }

  /** The screen's mount effect `initializeDatabase`: creates the table if it
      is absent; when the table already exists its rows and ids stay as they are. */
  method InitializeDatabase(table: ContactTable, fault: bool)
    requires table.Valid()
    modifies table
    ensures table.Valid()
    ensures table.created == (old(table.created) || !fault)
    ensures table.rows == old(table.rows) && table.nextId == old(table.nextId)
    ensures table.issued == old(table.issued)
  {
    var _ := table.CreateIfNotExists(fault);
  }

  class ContactForm {
    var name: string
    /** The picked date, in milliseconds since the epoch. */
    var date: int
    /** The picked category; None is the initial empty selection. */
    var option: Option<Relationship>
    /** The picked image; None is `null`. */
    var imageUri: Option<string>
    var isLoading: bool
    /** Every value `setIsLoading` has been called with, oldest first. */
    ghost var loadingHistory: seq<bool>

    /** The form as the screen first shows it, dated at `now`. */
    constructor (now: int)
      ensures name == "" && date == now && option == None && imageUri == None
      ensures !isLoading && loadingHistory == []
    {
      name := "";
      date := now;
      option := None;
      imageUri := None;
      isLoading := false;
      loadingHistory := [];
    }

    /** The name input's `onChangeText`. */
    method SetName(text: string)
      modifies this
      ensures name == text
      ensures date == old(date) && option == old(option) && imageUri == old(imageUri)
      ensures isLoading == old(isLoading) && loadingHistory == old(loadingHistory)
    {
      name := text;
    }

    /** The date picker's `onChange`: a dismissed picker yields no date and
        keeps the current one. */
    method PickDate(selected: Option<int>)
      modifies this
      ensures date == if selected.Some? then selected.value else old(date)
      ensures name == old(name) && option == old(option) && imageUri == old(imageUri)
      ensures isLoading == old(isLoading) && loadingHistory == old(loadingHistory)
    {
      if selected.Some? {
        date := selected.value;
      }
    }

    /** The category picker's `onValueChange`. */
    method SelectOption(r: Relationship)
      modifies this
      ensures option == Some(r)
      ensures name == old(name) && date == old(date) && imageUri == old(imageUri)
      ensures isLoading == old(isLoading) && loadingHistory == old(loadingHistory)
    {
      option := Some(r);
    }

    /** `handleImagePick`: a cancelled image picker (None) keeps the current image. */
    method PickImage(picked: Option<string>)
      modifies this
      ensures imageUri == if picked.Some? then picked else old(imageUri)
      ensures name == old(name) && date == old(date) && option == old(option)
      ensures isLoading == old(isLoading) && loadingHistory == old(loadingHistory)
    {
      if picked.Some? {
        imageUri := picked;
      }
    }

    /** `handleSubmit`. An incomplete form is rejected and nothing changes.
        Otherwise the loading flag is raised, one row carrying the form's
        fields is inserted, and the form is reset to `now` on success; on
        failure the form and the table stay as they were. Either way the
        loading flag is lowered at the end. */
    method HandleSubmit(table: ContactTable, now: int, fault: bool) returns (outcome: SubmitOutcome)
      requires table.Valid()
      modifies this, table
      ensures table.Valid()
      ensures table.created == old(table.created)
      ensures outcome.Rejected? <==> !old(FieldsFilled(name, option, imageUri))
      ensures outcome.Submitted? <==>
                old(FieldsFilled(name, option, imageUri)) && old(table.created) && !fault
      ensures outcome.Failed? ==> old(table.created) ==> outcome.error == IoFailure
      ensures !outcome.Submitted? ==>
                && table.rows == old(table.rows) && table.nextId == old(table.nextId)
                && table.issued == old(table.issued)
                && name == old(name) && date == old(date)
                && option == old(option) && imageUri == old(imageUri)
      ensures outcome.Submitted? ==>
                && outcome.id !in old(table.issued)
                && (forall k :: k in old(table.issued) ==> k < outcome.id)
                && table.issued == old(table.issued) + {outcome.id}
                && table.rows == old(table.rows) +
                     [Contact(outcome.id, old(name), Some(old(date)), old(option).value, old(imageUri))]
                && name == "" && date == now && option == None && imageUri == None
      ensures outcome.Rejected? ==>
                isLoading == old(isLoading) && loadingHistory == old(loadingHistory)
      ensures !outcome.Rejected? ==>
                !isLoading && loadingHistory == old(loadingHistory) + [true, false]
    {
      if !FieldsFilled(name, option, imageUri) {
        return Rejected;
      }
      isLoading := true;
      loadingHistory := loadingHistory + [true];
      var r := table.Insert(name, date, option.value, imageUri.value, fault);
      if r.Ok? {
        outcome := Submitted(r.value);
        name := "";
        date := now;
        option := None;
        imageUri := None;
      } else {
        outcome := Failed(r.error);
      }
      isLoading := false;
      loadingHistory := loadingHistory + [false];
    }
  }
}

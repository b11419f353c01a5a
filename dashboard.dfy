/** The patient-intake form controller: the entry being composed, the alert list and its
    pending expiry timers, the busy flag, the attached file's display name, the step
    indicator, and the age dropdown. */
module Dashboard {
  import opened Wrappers
  import opened Text
  import opened Alerts
  import opened Select

  /** A picked file; only its name and its size in bytes matter to the form. */
  datatype File = File(name: string, size: nat)

  /** The entry being composed (`formData`); `age` is the picked option's text, "" while
      no age has been picked. */
  datatype Entry = Entry(name: string, age: string, file: Option<File>)

  const EmptyEntry := Entry("", "", None)

  /** The fields of the multipart body that is posted. */
  datatype Payload = Payload(name: string, age: string, file: Option<File>)

  /** How the single POST ended: a reply with a success status, a reply with an error
      status and maybe an `error` field in its JSON body, or an exception raised by the
      request or by parsing the body (a non-JSON body included), with its message. */
  datatype Response = Ok | HttpError(error: Option<string>) | Thrown(message: string)

  /** The largest accepted attachment: 5 MiB. */
  const MaxUploadBytes: nat := 5 * 1024 * 1024

  const NameRequired := "Name is required"
  const AgeRequired := "Age is required"
  const AgePlaceholder := "Select age"
  const HttpFallback := "Failed to submit patient data"
  const SubmitFallback := "Failed to submit patient information. Please try again."

  const TooLarge := Notice(Error, Some("File too large"), "Please select a file smaller than 5MB", false)
  const Uploaded := Notice(Success, None, "File uploaded successfully", false)
  const Submitted := Notice(Success, Some("Success!"), "Patient information submitted successfully", true)

  /** The alert pushed for one validation message. */
  function ValidationNotice(message: string): Notice
  {
    Notice(Error, None, message, false)
  }

  /** The alerts pushed for a list of validation messages, the i-th stamped with the
      i-th clock reading. */
  function ValidationAlerts(errors: seq<string>, now: seq<int>): (r: seq<Alert>)
    requires |now| >= |errors|
    ensures |r| == |errors|
    ensures forall i :: 0 <= i < |errors| ==> r[i] == Alert(now[i], ValidationNotice(errors[i]))
  {
    if errors == [] then []
    else
      var last := |errors| - 1;
      ValidationAlerts(errors[..last], now) + [Alert(now[last], ValidationNotice(errors[last]))]
  }

  /** The messages `validateForm` reports: the name check first, then the age check. */
  function Validate(entry: Entry): (errors: seq<string>)
    ensures errors == [] <==> !IsBlank(entry.name) && entry.age != ""
    ensures NameRequired in errors <==> IsBlank(entry.name)
    ensures AgeRequired in errors <==> entry.age == ""
    ensures |errors| <= 2 && (|errors| == 2 ==> errors == [NameRequired, AgeRequired])
  {
    TrimEmptyIffBlank(entry.name);
    (if Trim(entry.name) == [] then [NameRequired] else [])
      + (if entry.age == "" then [AgeRequired] else [])
  }

  /** The message of the error the failed request raises: the server's `error` field
      when it is non-empty, a fixed text otherwise; or the caught exception's message. */
  function ThrownMessage(response: Response): (message: string)
    requires !response.Ok?
    ensures response.HttpError? && response.error.Some? && response.error.value != "" ==>
      message == response.error.value
    ensures response.HttpError? && (response.error.None? || response.error.value == "") ==>
      message == HttpFallback
    ensures response.Thrown? ==> message == response.message
  {
    match response
    case HttpError(error) => OrElse(if error.Some? then error.value else "", HttpFallback)
    case Thrown(message) => message
  }

  /** The description of the alert a failed submission pushes. */
  function FailureDescription(response: Response): (description: string)
    requires !response.Ok?
    ensures description != ""
    ensures response.HttpError? && response.error.Some? && response.error.value != "" ==>
      description == response.error.value
    ensures response.HttpError? && (response.error.None? || response.error.value == "") ==>
      description == HttpFallback
    ensures response.Thrown? && response.message != "" ==> description == response.message
    ensures response.Thrown? && response.message == "" ==> description == SubmitFallback
  {
    OrElse(ThrownMessage(response), SubmitFallback)
  }

  /** The values of the age dropdown's items: the numerals of 1 to 100, in order. */
  function AgeOptions(): (options: seq<string>)
    ensures |options| == 100
    ensures forall i :: 0 <= i < |options| ==> options[i] == NatToString(i + 1)
  {
    seq(100, i requires 0 <= i < 100 => NatToString(i + 1))
  }

  /** The numeral of an age from 1 to 100. */
  ghost predicate IsAgeOption(s: string)
  {
    exists k :: 1 <= k <= 100 && s == NatToString(k)
  }

  /** A string is an age option exactly when it is the numeral of an age from 1 to 100. */
  lemma AgeOptionsAreTheAges(s: string)
    ensures s in AgeOptions() <==> IsAgeOption(s)
  {
    var options := AgeOptions();
    if s in options {
      var i :| 0 <= i < |options| && options[i] == s;
      assert 1 <= i + 1 <= 100 && s == NatToString(i + 1);
    }
    if exists k :: 1 <= k <= 100 && s == NatToString(k) {
      var k :| 1 <= k <= 100 && s == NatToString(k);
      assert options[k - 1] == s;
    }
  }

  /** With the age `k` picked, exactly one item of the age list is marked: item k - 1. */
  lemma AgeMarkedExactlyOnce(k: nat)
    requires 1 <= k <= 100
    ensures forall i :: 0 <= i < |AgeOptions()| ==>
      (IsSelected(NatToString(k), AgeOptions()[i]) <==> i == k - 1)
  {
    forall i | 0 <= i < |AgeOptions()| && IsSelected(NatToString(k), AgeOptions()[i])
      ensures i == k - 1
    {
      assert DecimalValue(AgeOptions()[i]) == i + 1;
    }
  }

  /** The form controller. */
  class HealthcareDashboard {
    var entry: Entry
    var alerts: seq<Alert>
    /** The ids of the pending expiry timers, oldest first; all share one delay, so they
        fire in this order. */
    var timers: seq<int>
    var isLoading: bool
    var fileName: string
    var currentStep: int
    const ageSelect: Dropdown

    /** Every transient alert has a pending expiry timer; the age is unset or one of the
        dropdown's options (`IsAgeOption`, by `AgeOptionsAreTheAges`); an attached file
        is within the upload limit; and the step indicator stays on step 1: no
        transition ever moves it forward. */
    ghost predicate Valid()
      reads this
    {
      && Scheduled(alerts, timers)
      && (entry.age == "" || IsAgeOption(entry.age))
      && (entry.file.Some? ==> entry.file.value.size <= MaxUploadBytes)
      && currentStep == 1
    }

    /** The entry, the file name, the step and the busy flag are as they were. */
    twostate predicate FormUnchanged()
      reads this
    {
      && entry == old(entry) && fileName == old(fileName)
      && currentStep == old(currentStep) && isLoading == old(isLoading)
    }

    constructor ()
      ensures Valid()
      ensures entry == EmptyEntry && alerts == [] && timers == []
      ensures !isLoading && fileName == "" && currentStep == 1
      ensures fresh(ageSelect) && !ageSelect.open
    {
      entry := EmptyEntry;
      alerts := [];
      timers := [];
      isLoading := false;
      fileName := "";
      currentStep := 1;
      ageSelect := new Dropdown();
    }

    /** `addAlert`: appends the notice stamped with `id`, and schedules its expiry
        unless it is persistent. */
    method AddAlert(notice: Notice, id: int)
      requires Valid()
      modifies this
      ensures Valid()
      ensures alerts == old(alerts) + [Alert(id, notice)]
      ensures timers == old(timers) + (if notice.persistent then [] else [id])
      ensures FormUnchanged()
    {
      alerts := alerts + [Alert(id, notice)];
      if !notice.persistent {
        timers := timers + [id];
      }
    }

    /** `removeAlert` (a dismissal): drops every alert carrying `id`; pending timers stay. */
    method RemoveAlert(id: int)
      requires Valid()
      modifies this
      ensures Valid()
      ensures alerts == WithoutId(old(alerts), id) && timers == old(timers)
      ensures FormUnchanged()
    {
      alerts := WithoutId(alerts, id);
    }

    /** The oldest pending timer fires and removes the alerts carrying its id. */
    method Expire() returns (id: int)
      requires Valid() && timers != []
      modifies this
      ensures Valid()
      ensures id == old(timers)[0] && timers == old(timers)[1..]
      ensures alerts == WithoutId(old(alerts), id)
      ensures FormUnchanged()
    {
      id := timers[0];
      RemoveAlert(id);
      assert forall a :: a in alerts ==> a.id != id;
      timers := timers[1..];
    }

    /** `handleInputChange` as the name input, the only input wired to it, fires it:
        sets the entry's name. */
    method HandleInputChange(value: string)
      requires Valid()
      modifies this
      ensures Valid()
      ensures entry == old(entry).(name := value)
      ensures alerts == old(alerts) && timers == old(timers)
      ensures fileName == old(fileName) && currentStep == old(currentStep) && isLoading == old(isLoading)
    {
      entry := entry.(name := value);
    }

    /** `handleAgeChange`: the dropdown's value-change callback, its only caller, sets the
        age to the value of the clicked age item. */
    method HandleAgeChange(value: string)
      requires Valid() && value in AgeOptions()
      modifies this
      ensures Valid()
      ensures entry == old(entry).(age := value)
      ensures alerts == old(alerts) && timers == old(timers)
      ensures fileName == old(fileName) && currentStep == old(currentStep) && isLoading == old(isLoading)
    {
      AgeOptionsAreTheAges(value);
      entry := entry.(age := value);
    }

    /** `handleFileChange` with the input's file list: nothing happens without a file; a
        file over 5 MiB is refused with one "File too large" alert; any other file
        replaces the attachment and its name and is confirmed by one success alert. */
    method HandleFileChange(files: seq<File>, now: int)
      requires Valid()
      modifies this
      ensures Valid()
      ensures files == [] ==> alerts == old(alerts) && timers == old(timers) && FormUnchanged()
      ensures files != [] && files[0].size > MaxUploadBytes ==>
        && alerts == old(alerts) + [Alert(now, TooLarge)] && timers == old(timers) + [now]
        && FormUnchanged()
      ensures files != [] && files[0].size <= MaxUploadBytes ==>
        && entry == old(entry).(file := Some(files[0])) && fileName == files[0].name
        && alerts == old(alerts) + [Alert(now, Uploaded)] && timers == old(timers) + [now]
        && currentStep == old(currentStep) && isLoading == old(isLoading)
    {
      if files != [] {
        var file := files[0];
        if file.size > MaxUploadBytes {
          AddAlert(TooLarge, now);
          return;
        }
        entry := entry.(file := Some(file));
        fileName := file.name;
        AddAlert(Uploaded, now);
      }
    }

    /** Picking an age in the open dropdown: the dropdown closes, the age becomes the
        picked value, the trigger shows it, and the age check passes. */
    method SelectAge(value: string)
      requires Valid() && ageSelect.open && value in AgeOptions()
      modifies this, ageSelect
      ensures Valid() && !ageSelect.open
      ensures entry == old(entry).(age := value)
      ensures alerts == old(alerts) && timers == old(timers)
      ensures fileName == old(fileName) && currentStep == old(currentStep) && isLoading == old(isLoading)
      ensures DisplayedValue(entry.age, AgePlaceholder) == value
      ensures AgeRequired !in Validate(entry)
    {
      var reported := ageSelect.ClickItem(value);
      HandleAgeChange(reported);
    }

    /** The `forEach` over the validation messages: one error alert per message, in
        order, the i-th stamped with the i-th clock reading. */
    method AddValidationAlerts(errors: seq<string>, now: seq<int>)
      requires Valid() && |now| >= |errors|
      modifies this
      ensures Valid()
      ensures alerts == old(alerts) + ValidationAlerts(errors, now)
      ensures timers == old(timers) + now[..|errors|]
      ensures FormUnchanged()
    {
      var i := 0;
      while i < |errors|
        invariant 0 <= i <= |errors|
        invariant Valid()
        invariant alerts == old(alerts) + ValidationAlerts(errors[..i], now)
        invariant timers == old(timers) + now[..i]
        invariant FormUnchanged()
      {
        assert errors[..i + 1][..i] == errors[..i];
        assert now[..i + 1] == now[..i] + [now[i]];
        AddAlert(ValidationNotice(errors[i]), now[i]);
        i := i + 1;
      }
      assert errors[..i] == errors;
    }

    /** `handleSubmit` up to its request. With validation messages, one error alert per
        message is pushed in order, each stamped with its own clock reading, and nothing
        is sent. Otherwise the form becomes busy and the trimmed name, the age and the
        attachment are sent. The disabled submit button keeps this from running while
        the form is busy. */
    method BeginSubmit(now: seq<int>) returns (request: Option<Payload>)
      requires Valid() && !isLoading
      requires |now| >= |Validate(entry)|
      modifies this
      ensures Valid()
      ensures Validate(old(entry)) != [] ==>
        && request == None
        && alerts == old(alerts) + ValidationAlerts(Validate(old(entry)), now)
        && timers == old(timers) + now[..|Validate(old(entry))|]
        && FormUnchanged()
      ensures Validate(old(entry)) == [] ==>
        && request == Some(Payload(Trim(old(entry).name), old(entry).age, old(entry).file))
        && isLoading
        && alerts == old(alerts) && timers == old(timers)
        && entry == old(entry) && fileName == old(fileName) && currentStep == old(currentStep)
      ensures request.Some? ==> !IsBlank(request.value.name) && request.value.age in AgeOptions()
      ensures request.Some? && request.value.file.Some? ==>
        request.value.file.value.size <= MaxUploadBytes
    {
      var errors := Validate(entry);
      if errors != [] {
        AddValidationAlerts(errors, now);
        return None;
      }
      var name := Trim(entry.name);
      TrimEmptyIffBlank(entry.name);
      assert name != [] && !IsWhiteSpace(name[0]);
      AgeOptionsAreTheAges(entry.age);
      isLoading := true;
      request := Some(Payload(name, entry.age, entry.file));
    }

    /** `handleSubmit` after its request settles. On success a persistent success alert
        is pushed and the entry, the file name and the step are reset; on any failure
        one error alert is pushed and the entry is kept. Either way the form is no
        longer busy. */
    method FinishSubmit(response: Response, now: int)
      requires Valid() && isLoading
      modifies this
      ensures Valid() && !isLoading
      ensures response.Ok? ==>
        && alerts == old(alerts) + [Alert(now, Submitted)] && timers == old(timers)
        && entry == EmptyEntry && fileName == "" && currentStep == 1
      ensures !response.Ok? ==>
        && alerts == old(alerts) + [Alert(now, Notice(Error, Some("Error"), FailureDescription(response), false))]
        && timers == old(timers) + [now]
        && entry == old(entry) && fileName == old(fileName) && currentStep == old(currentStep)
    {
      if response.Ok? {
        AddAlert(Submitted, now);
        entry := EmptyEntry;
        fileName := "";
        currentStep := 1;
      } else {
        AddAlert(Notice(Error, Some("Error"), FailureDescription(response), false), now);
      }
      isLoading := false;
    }
  }

  /** "42" is the value of the 42nd age item. */
  lemma FortyTwoIsAnAgeOption()
    ensures "42" in AgeOptions()
  {
    assert NatToString(4) == "4";
    assert NatToString(42) == NatToString(4) + [DigitChar(2)];
    assert AgeOptions()[41] == "42";
  }

  /** The entry the end-to-end scenarios submit passes validation and its name is sent
      as typed. */
  lemma SampleEntryIsValid()
    ensures Trim("Jane") == "Jane"
    ensures Validate(Entry("Jane", "42", None)) == []
  {
    var name := "Jane";
    assert !IsWhiteSpace(name[0]) && !IsWhiteSpace(name[3]);
    assert TrimStart(name) == name && TrimEnd(name) == name;
  }

  /** A fresh form with "Jane" typed as the name. */
  method NamedForm() returns (form: HealthcareDashboard)
    ensures fresh(form) && fresh(form.ageSelect) && form.Valid()
    ensures form.entry == Entry("Jane", "", None)
    ensures form.alerts == [] && form.timers == [] && !form.isLoading && !form.ageSelect.open
  {
    form := new HealthcareDashboard();
    form.HandleInputChange("Jane");
  }

  /** The named form with 42 picked in the age dropdown. */
  method FilledForm() returns (form: HealthcareDashboard)
    ensures fresh(form) && fresh(form.ageSelect) && form.Valid()
    ensures form.entry == Entry("Jane", "42", None)
    ensures form.alerts == [] && form.timers == [] && !form.isLoading && !form.ageSelect.open
  {
    form := NamedForm();
    FortyTwoIsAnAgeOption();
    form.ageSelect.Trigger();
    form.SelectAge("42");
  }

  /** The filled form after its submit button is pressed: the form is busy, nothing has
      been pushed, and "Jane" and "42" are sent. */
  method SubmittedForm() returns (form: HealthcareDashboard)
    ensures fresh(form) && fresh(form.ageSelect) && form.Valid() && form.isLoading
    ensures form.entry == Entry("Jane", "42", None) && form.alerts == [] && form.timers == []
    ensures !form.ageSelect.open
  {
    form := FilledForm();
    SampleEntryIsValid();
    var request := form.BeginSubmit([]);
    assert request == Some(Payload("Jane", "42", None));
  }

  /** A valid entry whose submission succeeds: the form ends empty, idle, on step 1,
      with one persistent success alert. */
  method AcceptedSubmissionScenario()
  {
    var form := SubmittedForm();
    form.FinishSubmit(Ok, 1000);
    assert form.entry == EmptyEntry && form.fileName == "" && form.currentStep == 1;
    assert form.alerts == [Alert(1000, Submitted)] && form.alerts[0].notice.persistent;
    assert !form.isLoading && !form.ageSelect.open;
  }

  /** A valid entry the server rejects with `{"error": "Duplicate record"}`: the entry is
      kept and one error alert carries the server's message. */
  method RejectedSubmissionScenario()
  {
    var form := SubmittedForm();
    var rejected := HttpError(Some("Duplicate record"));
    form.FinishSubmit(rejected, 1000);
    assert form.entry == Entry("Jane", "42", None) && !form.isLoading;
    assert form.alerts == [Alert(1000, Notice(Error, Some("Error"), "Duplicate record", false))];
  }

  /** An empty entry: two validation alerts, name first. Read in the same millisecond,
      they share an id, so dismissing one dismisses both. */
  method EmptySubmissionScenario()
  {
    var errors := [NameRequired, AgeRequired];
    assert errors[..1][..0] == [] && errors[..2] == errors;
    var shown := [Alert(7, ValidationNotice(NameRequired)), Alert(7, ValidationNotice(AgeRequired))];
    assert ValidationAlerts(errors[..1], [7, 7]) == shown[..1];
    assert ValidationAlerts(errors, [7, 7]) == shown;
    assert Trim(EmptyEntry.name) == [];
    assert Validate(EmptyEntry) == errors;
    var form := new HealthcareDashboard();
    var request := form.BeginSubmit([7, 7]);
    assert request == None && form.alerts == shown;
    assert WithoutId(shown[1..], 7) == [];
    form.RemoveAlert(7);
    assert form.alerts == [];
  }
}

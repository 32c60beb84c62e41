/** The contact form: its four text fields, the per-field validation that runs
    before a message is sent, and the submission status shown under the form. */
module Contact {

  import opened Optional
  import opened Text

  datatype Field = Name | Email | Subject | Message

  /** The values typed into the form, untrimmed. */
  datatype FormData = FormData(name: string, email: string, subject: string, message: string) {

    function Get(f: Field): string {
      match f
      case Name => name
      case Email => email
      case Subject => subject
      case Message => message
    }

    /** The form with field `f` set to `v` (`{ ...prev, [name]: value }`). */
    function With(f: Field, v: string): (r: FormData)
      ensures r.Get(f) == v
      ensures forall g :: g != f ==> r.Get(g) == Get(g)
    {
      match f
      case Name => this.(name := v)
      case Email => this.(email := v)
      case Subject => this.(subject := v)
      case Message => this.(message := v)
    }
  }

  const Blank := FormData("", "", "", "")

  datatype Status = Idle | Success | Error

  const NameEmpty := "Name cannot be empty or spaces only."
  const SubjectEmpty := "Subject cannot be empty or spaces only."
  const MessageEmpty := "Message cannot be empty or spaces only."
  const EmailRequired := "Email is required."
  const EmailInvalid := "Please enter a valid email (e.g. user@email.com)."

  // ---------------------------------------------------------------------------
  // The email pattern /^[^\s@]+@[^\s@]+\.[^\s@]+$/

  /** A character of the class `[^\s@]`. */
  predicate IsPlain(c: char) {
    !IsSpace(c) && c != '@'
  }

  /** `s[lo..hi]` is a run of `[^\s@]` characters. */
  predicate PlainRun(s: string, lo: int, hi: int)
    requires 0 <= lo <= hi <= |s|
  {
    forall k :: lo <= k < hi ==> IsPlain(s[k])
  }

  /** `/^[^\s@]+@[^\s@]+\.[^\s@]+$/.test(s)`, read segment by segment: `s` is
      A '@' B '.' C, where A, B and C are non-empty runs of `[^\s@]` (B and C
      may themselves hold dots). */
  predicate MatchesEmailPattern(s: string) {
    exists at, dot | 0 < at < |s| && at < dot < |s| :: SplitsAsEmail(s, at, dot)
  }

  /** `s` is A '@' B '.' C with the '@' at `at` and the '.' at `dot`. */
  predicate SplitsAsEmail(s: string, at: int, dot: int) {
    && 0 < at && at + 1 < dot && dot + 1 < |s|
    && s[at] == '@' && s[dot] == '.'
    && PlainRun(s, 0, at) && PlainRun(s, at + 1, dot) && PlainRun(s, dot + 1, |s|)
  }

  /** The same language described by what its strings look like: no white space,
      exactly one '@' with something before it, and after the '@' a '.' that is
      neither the first nor the last character of the domain part. */
  ghost predicate HasEmailShape(s: string) {
    && (forall k :: 0 <= k < |s| ==> !IsSpace(s[k]))
    && multiset(s)['@'] == 1
    && exists at, dot :: 0 < at && at + 1 < dot < |s| - 1 && s[at] == '@' && s[dot] == '.'
  }

  /** A string without '@' holds no '@'. */
  lemma NoAtCount(s: string)
    requires forall k :: 0 <= k < |s| ==> s[k] != '@'
    ensures multiset(s)['@'] == 0
  {
    assert '@' !in s;
  }

  /** The pattern, read segment by segment, accepts exactly the strings of
      that shape. */
  lemma EmailPatternShape(s: string)
    ensures MatchesEmailPattern(s) <==> HasEmailShape(s)
  {
    if MatchesEmailPattern(s) {
      var at, dot :| 0 < at < |s| && at < dot < |s| && SplitsAsEmail(s, at, dot);
      SplitHasShape(s, at, dot);
    }
    if HasEmailShape(s) {
      var at, dot :| 0 < at && at + 1 < dot < |s| - 1 && s[at] == '@' && s[dot] == '.';
      ShapeSplits(s, at, dot);
    }
  }

  /** A segment split has the shape. */
  lemma SplitHasShape(s: string, at: int, dot: int)
    requires SplitsAsEmail(s, at, dot)
    ensures HasEmailShape(s)
  {
    assert s == s[..at] + [s[at]] + s[at + 1..];
    NoAtCount(s[..at]);
    NoAtCount(s[at + 1..]);
  }

  /** A string of the shape splits at its '@' and any later '.' that is not
      at an end of the domain part. */
  lemma ShapeSplits(s: string, at: int, dot: int)
    requires HasEmailShape(s)
    requires 0 < at && at + 1 < dot < |s| - 1 && s[at] == '@' && s[dot] == '.'
    ensures SplitsAsEmail(s, at, dot)
  {
    assert s == s[..at] + [s[at]] + s[at + 1..];
    assert multiset(s[..at])['@'] == 0 && multiset(s[at + 1..])['@'] == 0;
    forall k | 0 <= k < |s| && k != at ensures IsPlain(s[k]) {
      if k < at {
        assert s[k] in multiset(s[..at]) by { assert s[k] == s[..at][k]; }
      } else {
        assert s[k] in multiset(s[at + 1..]) by { assert s[k] == s[at + 1..][k - at - 1]; }
      }
    }
  }

  // ---------------------------------------------------------------------------
  // Validation

  /** The rule of field `f` applied to its trimmed value `t`: the message
      `validateForm` records when the field fails, nothing when it passes. */
  function Rule(f: Field, t: string): Option<string> {
    match f
    case Name => if t == [] then Some(NameEmpty) else None
    case Subject => if t == [] then Some(SubjectEmpty) else None
    case Message => if t == [] then Some(MessageEmpty) else None
    case Email =>
      if t == [] then Some(EmailRequired)
      else if !MatchesEmailPattern(t) then Some(EmailInvalid)
      else None
  }

  /** The form may be sent: every text field has a non-blank character and the
      trimmed email matches the pattern. */
  predicate IsSubmittable(d: FormData) {
    && !AllSpace(d.name) && !AllSpace(d.subject) && !AllSpace(d.message)
    && MatchesEmailPattern(Trim(d.email))
  }

  /** `m` with the entry `e` for `f`, when there is one. */
  function Put(m: map<Field, string>, f: Field, e: Option<string>): (r: map<Field, string>)
    ensures f in r <==> f in m || e.Some?
    ensures e.Some? ==> r[f] == e.value
    ensures forall g :: g != f ==> (g in r <==> g in m) && (g in m ==> r[g] == m[g])
  {
    if e.Some? then m[f := e.value] else m
  }

  /** The error map `validateForm` builds: each field's rule is applied to its
      trimmed value and every failing field gets its entry; a failure does not
      stop the later rules from running. */
  function ValidationErrors(d: FormData): (r: map<Field, string>)
    ensures Name in r <==> AllSpace(d.name)
    ensures Subject in r <==> AllSpace(d.subject)
    ensures Message in r <==> AllSpace(d.message)
    ensures Email in r <==> !MatchesEmailPattern(Trim(d.email))
    ensures Name in r ==> r[Name] == NameEmpty
    ensures Subject in r ==> r[Subject] == SubjectEmpty
    ensures Message in r ==> r[Message] == MessageEmpty
    ensures AllSpace(d.email) ==> Email in r && r[Email] == EmailRequired
    ensures !AllSpace(d.email) && Email in r ==> r[Email] == EmailInvalid
  {
    assert Trim(d.email) == [] ==> !MatchesEmailPattern(Trim(d.email));
    var withName := Put(map[], Name, Rule(Name, Trim(d.name)));
    var withSubject := Put(withName, Subject, Rule(Subject, Trim(d.subject)));
    var withMessage := Put(withSubject, Message, Rule(Message, Trim(d.message)));
    Put(withMessage, Email, Rule(Email, Trim(d.email)))
  }

  /** A map that holds, for every field, what that field's rule gives on its
      trimmed value is the validation error map. */
  lemma RuleByRule(m: map<Field, string>, d: FormData)
    requires Name in m <==> Rule(Name, Trim(d.name)).Some?
    requires Name in m ==> m[Name] == Rule(Name, Trim(d.name)).value
    requires Subject in m <==> Rule(Subject, Trim(d.subject)).Some?
    requires Subject in m ==> m[Subject] == Rule(Subject, Trim(d.subject)).value
    requires Message in m <==> Rule(Message, Trim(d.message)).Some?
    requires Message in m ==> m[Message] == Rule(Message, Trim(d.message)).value
    requires Email in m <==> Rule(Email, Trim(d.email)).Some?
    requires Email in m ==> m[Email] == Rule(Email, Trim(d.email)).value
    ensures m == ValidationErrors(d)
  {
    var r := ValidationErrors(d);
    forall f: Field ensures (f in m <==> f in r) && (f in m ==> m[f] == r[f]) {
      match f
      case Name =>
      case Subject =>
      case Message =>
      case Email =>
    }
    assert m.Keys == r.Keys;
  }

  /** The form is valid exactly when the error map comes out with no keys. */
  lemma {:induction false} ValidIffNoErrors(d: FormData)
    ensures ValidationErrors(d) == map[] <==> IsSubmittable(d)
  {
    var r := ValidationErrors(d);
    if IsSubmittable(d) {
      forall f: Field ensures f !in r {
        match f
        case Name =>
        case Email =>
        case Subject =>
        case Message =>
      }
      assert r.Keys == {};
    }
  }

  /** An email that is blank after trimming is reported as missing, never as
      malformed, whatever the other fields hold. */
  lemma BlankEmailIsMissingNotMalformed(d: FormData)
    requires AllSpace(d.email)
    ensures ValidationErrors(d)[Email] == EmailRequired
    ensures ValidationErrors(d)[Email] != EmailInvalid
  {
  }

  /** A form whose four fields are all blank gets exactly four errors, one per
      field, with their own messages. */
  lemma AllBlankGetsFourErrors(d: FormData)
    requires AllSpace(d.name) && AllSpace(d.email) && AllSpace(d.subject) && AllSpace(d.message)
    ensures ValidationErrors(d) == map[Name := NameEmpty, Email := EmailRequired,
                                       Subject := SubjectEmpty, Message := MessageEmpty]
    ensures |ValidationErrors(d)| == 4
  {
    var r := ValidationErrors(d);
    var expected := map[Name := NameEmpty, Email := EmailRequired, Subject := SubjectEmpty, Message := MessageEmpty];
    assert r.Keys == expected.Keys;
    assert r == expected;
    assert expected.Keys == {Name, Email, Subject, Message};
  }

  /** A filled-in form whose address is `jo@x.com` validates without errors. */
  lemma ExampleFormIsValid()
    ensures ValidationErrors(FormData("Jo", "jo@x.com", "Hi", "Hello there")) == map[]
  {
    var e := "jo@x.com";
    assert !IsSpace(e[0]) && !IsSpace(e[|e| - 1]);
    TrimKeepsUnpadded(e);
    assert IsPlain(e[0]) && IsPlain(e[1]) && IsPlain(e[3]);
    assert IsPlain(e[5]) && IsPlain(e[6]) && IsPlain(e[7]);
    assert SplitsAsEmail(e, 2, 4);
    assert !AllSpace("Jo") by { assert !IsSpace("Jo"[0]); }
    assert !AllSpace("Hi") by { assert !IsSpace("Hi"[0]); }
    assert !AllSpace("Hello there") by { assert !IsSpace("Hello there"[0]); }
    ValidIffNoErrors(FormData("Jo", e, "Hi", "Hello there"));
  }

  /** A non-blank address without '@' is reported as malformed, whatever the
      other fields hold. */
  lemma NoAtIsMalformed(d: FormData)
    requires !AllSpace(d.email)
    requires forall k :: 0 <= k < |d.email| ==> d.email[k] != '@'
    ensures Email in ValidationErrors(d) && ValidationErrors(d)[Email] == EmailInvalid
  {
    var t := Trim(d.email);
    TrimRemovesOnlyOuterSpace(d.email);
    var i := SkipSpaces(d.email, 0);
    assert forall k :: 0 <= k < |t| ==> t[k] == d.email[i + k];
    assert !MatchesEmailPattern(t) by {
      assert forall k :: 0 <= k < |t| ==> t[k] != '@';
    }
  }

  /** When the other three fields are filled in, the format error of such an
      address is the only error. */
  lemma NotAnEmailIsOnlyFormatError(d: FormData)
    requires !AllSpace(d.name) && !AllSpace(d.subject) && !AllSpace(d.message) && !AllSpace(d.email)
    requires forall k :: 0 <= k < |d.email| ==> d.email[k] != '@'
    ensures ValidationErrors(d) == map[Email := EmailInvalid]
  {
    NoAtIsMalformed(d);
    var r := ValidationErrors(d);
    assert r.Keys == {Email};
  }

  /** `handleChange`'s error update: a truthy (present and non-empty) entry for
      `f` becomes "", every other entry stays as it was. */
  function ClearError(errs: map<Field, string>, f: Field): (r: map<Field, string>)
    ensures r.Keys == errs.Keys
    ensures forall g :: g in errs && g != f ==> r[g] == errs[g]
    ensures f in errs ==> r[f] == ""
    ensures (f !in errs || errs[f] == "") ==> r == errs
  {
    if f in errs && errs[f] != "" then errs[f := ""] else errs
  }

  // ---------------------------------------------------------------------------
  // The form component's state

  class ContactForm {
    var data: FormData
    var errors: map<Field, string>
    var status: Status

    constructor ()
      ensures data == Blank && errors == map[] && status == Idle
    {
      data := Blank;
      errors := map[];
      status := Idle;
    }

    /** `validateForm`: rebuilds the error map from the current fields, one rule
        after the other, and reports whether it came out empty. */
    method ValidateForm() returns (ok: bool)
      modifies this`errors
      ensures errors == ValidationErrors(data)
      ensures ok <==> errors == map[]
      ensures ok <==> IsSubmittable(data)
    {
      var newErrors: map<Field, string> := map[];
      var trimmedName := Trim(data.name);
      var trimmedEmail := Trim(data.email);
      var trimmedSubject := Trim(data.subject);
      var trimmedMessage := Trim(data.message);

      if trimmedName == [] { newErrors := newErrors[Name := NameEmpty]; }
      if trimmedSubject == [] { newErrors := newErrors[Subject := SubjectEmpty]; }
      if trimmedMessage == [] { newErrors := newErrors[Message := MessageEmpty]; }

      if trimmedEmail == [] {
        newErrors := newErrors[Email := EmailRequired];
      } else if !MatchesEmailPattern(trimmedEmail) {
        newErrors := newErrors[Email := EmailInvalid];
      }

      errors := newErrors;
      ok := |newErrors.Keys| == 0;
      RuleByRule(newErrors, data);
      ValidIffNoErrors(data);
    }

    /** `handleChange`: stores the new value of one field and blanks that
        field's error if it had one. */
    method HandleChange(f: Field, value: string)
      modifies this`data, this`errors
      ensures data == old(data).With(f, value)
      ensures errors == ClearError(old(errors), f)
    {
      data := data.With(f, value);
      if f in errors && errors[f] != "" {
        errors := errors[f := ""];
      }
    }

    /** `handleSubmit`: validates; an invalid form turns the status to error and
        nothing is sent, a valid one yields the untrimmed fields to send. */
    method HandleSubmit() returns (request: Option<FormData>)
      modifies this`errors, this`status
      ensures errors == ValidationErrors(data)
      ensures request == if IsSubmittable(data) then Some(data) else None
      ensures status == if IsSubmittable(data) then old(status) else Error
    {
      var isValid := ValidateForm();
      if !isValid {
        status := Error;
        request := None;
        return;
      }
      request := Some(data);
    }

    /** The send resolved: status success, fields and errors cleared. */
    method SendSucceeded()
      modifies this`data, this`errors, this`status
      ensures data == Blank && errors == map[] && status == Success
    {
      status := Success;
      data := Blank;
      errors := map[];
    }

    /** The send was rejected: status error, what the user typed is kept. */
    method SendFailed()
      modifies this`status
      ensures status == Error
    {
      status := Error;
    }

    /** A 4000 ms status timer fired. */
    method StatusTimeout()
      modifies this`status
      ensures status == Idle
    {
      status := Idle;
    }
  }

  /** A message typed in field by field, submitted and sent, using only the
      contracts of the form's handlers. */
  method SubmitScenario()
  {
    var form := new ContactForm();
    form.HandleChange(Name, "Jo");
    form.HandleChange(Email, "jo@x.com");
    form.HandleChange(Subject, "Hi");
    form.HandleChange(Message, "Hello there");
    assert form.data == FormData("Jo", "jo@x.com", "Hi", "Hello there");
    ExampleFormIsValid();
    ValidIffNoErrors(form.data);
    var request := form.HandleSubmit();
    assert request == Some(FormData("Jo", "jo@x.com", "Hi", "Hello there"));
    form.SendSucceeded();
    assert form.data == Blank && form.errors == map[] && form.status == Success;
    form.StatusTimeout();
    assert form.status == Idle;
  }

}

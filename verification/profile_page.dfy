/** The operator profile page (Client/src/pages/Profile.jsx): its email
    check, and the form state that loading, editing and submitting change.
    The two server calls (fetch and save) are parameters: how they ended. */
module ProfilePage {
  import opened Js
  import opened Text
  import ProfileSchema

  // ---------------------------------------------------------------------
  // The client's email check /^[^\s@]+@[^\s@]+\.[^\s@]+$/
  // ---------------------------------------------------------------------

  /** `[^\s@]+` over the whole string, empty allowed: no white space, no `@`. */
  predicate Plain(s: string)
  {
    forall k :: 0 <= k < |s| ==> !IsSpace(s[k]) && s[k] != '@'
  }

  /** The regex's language: A@B.C with A, B and C non-empty and plain. */
  ghost predicate ClientEmailAt(s: string, a: string, b: string, c: string)
  {
    && s == a + "@" + b + "." + c
    && a != [] && b != [] && c != []
    && Plain(a) && Plain(b) && Plain(c)
  }

  ghost predicate ClientPattern(s: string)
  {
    exists a, b, c :: ClientEmailAt(s, a, b, c)
  }

  /** `validateEmail`: exactly one `@`, no white space, something before the
      `@`, and after it a `.` that is neither its first nor its last
      character. */
  predicate ValidateEmail(email: string)
  {
    match FirstIndex(email, '@')
    case None => false
    case Some(i) =>
      var domain := email[i + 1..];
      && i > 0 && Plain(email[..i]) && Plain(domain)
      && |domain| >= 3 && '.' in domain[1..|domain| - 1]
  }

  /** The check accepts exactly the regex's language. */
  lemma {:induction false} ValidateEmailMatchesPattern(s: string)
    ensures ValidateEmail(s) <==> ClientPattern(s)
  {
    if ValidateEmail(s) {
      var a, b, c := ClientPieces(s);
    }
    if ClientPattern(s) {
      var a, b, c :| ClientEmailAt(s, a, b, c);
      PatternValidates(s, a, b, c);
    }
  }

  /** The witnesses of an accepted address: what precedes the `@`, and the
      domain cut at a `.` strictly inside it. */
  lemma {:induction false} ClientPieces(s: string) returns (a: string, b: string, c: string)
    requires ValidateEmail(s)
    ensures ClientEmailAt(s, a, b, c)
  {
    var i := FirstIndex(s, '@').value;
    var domain := s[i + 1..];
    var inner := domain[1..|domain| - 1];
    var m :| 0 <= m < |inner| && inner[m] == '.';
    var j := m + 1;
    assert domain[j] == inner[m];
    a, b, c := s[..i], domain[..j], domain[j + 1..];
    ProfileSchema.Reassemble(s, i, domain, j);
    PlainSlices(domain, j);
  }

  /** Both sides of a cut through a plain string are plain. */
  lemma {:induction false} PlainSlices(d: string, j: nat)
    requires Plain(d) && j < |d|
    ensures Plain(d[..j]) && Plain(d[j + 1..])
  {
    forall k | j + 1 <= k < |d|
      ensures d[j + 1..][k - j - 1] == d[k]
    {
    }
  }

  /** A string of the regex's language passes the check: its only `@` follows
      A, and the `.` after B is inside the domain. */
  lemma {:induction false} PatternValidates(s: string, a: string, b: string, c: string)
    requires ClientEmailAt(s, a, b, c)
    ensures ValidateEmail(s)
  {
    assert s[|a|] == '@';
    assert forall k :: 0 <= k < |a| ==> s[k] == a[k];
    var i := FirstIndex(s, '@').value;
    assert i == |a|;
    var domain := s[i + 1..];
    assert domain == b + "." + c;
    assert s[..i] == a;
    assert forall k :: 0 <= k < |domain| ==> !IsSpace(domain[k]) && domain[k] != '@' by {
      forall k | 0 <= k < |domain|
        ensures !IsSpace(domain[k]) && domain[k] != '@'
      {
        if k < |b| {
          assert domain[k] == b[k];
        } else if k > |b| {
          assert domain[k] == c[k - |b| - 1];
        }
      }
    }
    assert domain[1..|domain| - 1][|b| - 1] == '.';
  }

  /** Every address the server's schema accepts passes the client's check. */
  lemma {:induction false} ServerValidImpliesClientValid(s: string)
    requires ProfileSchema.ValidEmail(s)
    ensures ValidateEmail(s)
  {
    ProfileSchema.ValidEmailMatchesPattern(s);
    var l, d, t :| ProfileSchema.EmailAt(s, l, d, t);
    ProfileSchema.DottedWordChars(l);
    ProfileSchema.DottedWordChars(d);
    assert ClientEmailAt(s, l, d, t);
    PatternValidates(s, l, d, t);
  }

  /** The converse fails: a one-character final label passes the client's
      check, while the schema's validator wants two or three. */
  lemma {:induction false} ClientAcceptsMore()
    ensures ValidateEmail("a@b.c") && !ProfileSchema.ValidEmail("a@b.c")
  {
    var s := "a@b.c";
    assert FirstIndex(s, '@') == Some(1) by {
      assert s[0] != '@' && s[1] == '@';
    }
    var rest := s[2..];
    assert rest == "b.c";
    assert LastIndex(rest, '.') == Some(1) by {
      assert rest[2] != '.' && rest[1] == '.';
      assert rest[..2] == "b.";
    }
    assert !ProfileSchema.IsTopLabel(rest[2..]);
    assert s[2..][1..|s[2..]| - 1] == ".";
  }

  // ---------------------------------------------------------------------
  // Form state
  // ---------------------------------------------------------------------

  const DefaultOrganization := "DRDO / Indian Navy"

  datatype FormData = FormData(name: string, designation: string, email: string, organization: string)

  /** The form's initial values. */
  const InitialForm := FormData("", "", "", DefaultOrganization)

  /** The input fields, by their `name` attribute. */
  datatype Field = Name | Designation | Email | Organization

  function Get(f: FormData, field: Field): string
  {
    match field
    case Name => f.name
    case Designation => f.designation
    case Email => f.email
    case Organization => f.organization
  }

  /** `{ ...prev, [name]: value }`: the named field takes the value, every
      other field keeps its own. */
  function WithField(f: FormData, field: Field, value: string): (g: FormData)
    ensures Get(g, field) == value
    ensures forall other :: other != field ==> Get(g, other) == Get(f, other)
  {
    match field
    case Name => f.(name := value)
    case Designation => f.(designation := value)
    case Email => f.(email := value)
    case Organization => f.(organization := value)
  }

  /** The stored profile as `fetchProfile` hands it over: any field may be
      missing (the server sends `{}` when there is none). */
  datatype LoadedProfile = LoadedProfile(
    name: Option<string>, designation: Option<string>, email: Option<string>, organization: Option<string>)

  /** How `fetchProfile` ended: with the loaded data (`None` for a missing
      body), or by throwing. */
  datatype FetchResult = Fetched(data: Option<LoadedProfile>) | FetchFailed

  /** The notice shown to the operator (a toast). */
  datatype Notice = ProfileLoaded | NoProfileFound | LoadFailed | InvalidEmail | Saved | SaveFailed

  /** A loaded profile counts when it carries a truthy email. */
  predicate HasProfile(data: Option<LoadedProfile>)
  {
    data.Some? && Truthy(data.value.email)
  }

  /** The form after a load: with a profile, its email, its other fields or
      '' where they are missing, and the default organization where that is
      missing; without one, the form as it was. */
  function AfterLoad(current: FormData, data: Option<LoadedProfile>): (g: FormData)
    ensures !HasProfile(data) ==> g == current
    ensures HasProfile(data) ==> && g.email == data.value.email.value
                                 && g.name == Or(data.value.name, "")
                                 && g.designation == Or(data.value.designation, "")
                                 && g.organization == Or(data.value.organization, DefaultOrganization)
  {
    if HasProfile(data) then
      var p := data.value;
      FormData(Or(p.name, ""), Or(p.designation, ""), Or(p.email, ""), Or(p.organization, DefaultOrganization))
    else current
  }

  /** The page component's state. */
  class ProfilePage {
    var formData: FormData
    /** A save is in flight. */
    var isLoading: bool
    /** The initial fetch has not finished. */
    var isInitialLoading: bool

    constructor()
      ensures formData == InitialForm && !isLoading && isInitialLoading
    {
      formData := InitialForm;
      isLoading := false;
      isInitialLoading := true;
    }

    /** `loadProfile`: fills the form from a stored profile, and ends the
        initial loading however the fetch went. */
    method LoadProfile(result: FetchResult) returns (notice: Notice)
      modifies this
      ensures result.Fetched? ==> formData == AfterLoad(old(formData), result.data)
      ensures result.FetchFailed? ==> formData == old(formData)
      ensures !isInitialLoading && isLoading == old(isLoading)
      ensures notice == (if result.FetchFailed? then LoadFailed
                         else if HasProfile(result.data) then ProfileLoaded else NoProfileFound)
    {
      match result {
        case FetchFailed =>
          notice := LoadFailed;
        case Fetched(data) =>
          if data.Some? && Truthy(data.value.email) {
            var p := data.value;
            formData := FormData(Or(p.name, ""), Or(p.designation, ""), Or(p.email, ""), Or(p.organization, DefaultOrganization));
            notice := ProfileLoaded;
          } else {
            notice := NoProfileFound;
          }
      }
      isInitialLoading := false;
    }

    /** `handleChange`: one field takes the typed value. */
    method HandleChange(field: Field, value: string)
      modifies this
      ensures formData == WithField(old(formData), field, value)
      ensures isLoading == old(isLoading) && isInitialLoading == old(isInitialLoading)
    {
      formData := WithField(formData, field, value);
    }

    /** `handleSubmit`: with an invalid email nothing is sent and nothing
        changes; otherwise the form is sent with `isLoading` raised for the
        duration of the save, and lowered after it whether `saveProfile`
        resolved (`saveOk`) or threw. */
    method HandleSubmit(saveOk: bool) returns (sent: Option<FormData>, loadingDuringSave: bool, notice: Notice)
      modifies this
      ensures sent.Some? <==> ValidateEmail(old(formData).email)
      ensures sent.Some? ==> sent.value == old(formData) && loadingDuringSave && !isLoading
      ensures sent.None? ==> isLoading == old(isLoading) && notice == InvalidEmail
      ensures sent.Some? ==> notice == (if saveOk then Saved else SaveFailed)
      ensures formData == old(formData) && isInitialLoading == old(isInitialLoading)
    {
      if !ValidateEmail(formData.email) {
        return None, false, InvalidEmail;
      }
      isLoading := true;
      sent := Some(formData);
      loadingDuringSave := isLoading;
      notice := if saveOk then Saved else SaveFailed;
      isLoading := false;
    }
  }

  /** From a fresh page an invalid email is never sent and leaves the save
      indicator off. */
  method SubmitInvalidFromStart(email: string) returns (sent: Option<FormData>, loading: bool)
    requires !ValidateEmail(email)
    ensures sent.None? && !loading
  {
    var page := new ProfilePage();
    page.HandleChange(Email, email);
    var during, notice;
    sent, during, notice := page.HandleSubmit(true);
    loading := page.isLoading;
  }
}

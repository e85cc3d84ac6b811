/** The operator profile schema (Server/models/OperatorProfileModel.js): which
    fields are required, how values are normalised (trim, lower-case,
    defaults) and which email addresses the schema's validator accepts. */
module ProfileSchema {
  import opened Js
  import opened Text

  const DefaultOrganization := "DRDO / Indian Navy"

  /** A stored operator profile; `lastUpdated` is a time in milliseconds. */
  datatype OperatorProfile = OperatorProfile(
    name: string, email: string, designation: string, organization: string, lastUpdated: int)

  /** The values a document is built from, before the schema's setters and
      defaults run; a missing value is `None`. */
  datatype ProfileFields = ProfileFields(
    name: Option<string>, email: Option<string>, designation: Option<string>,
    organization: Option<string>, lastUpdated: Option<int>)

  /** The schema paths that can fail validation. */
  datatype FieldPath = NamePath | EmailPath | DesignationPath

  /** A document that passed validation, or the set of paths that failed. */
  datatype CastResult = Cast(profile: OperatorProfile) | Rejected(errors: set<FieldPath>)

  // ---------------------------------------------------------------------
  // The email validator /^\w+([\.-]?\w+)*@\w+([\.-]?\w+)*(\.\w{2,3})+$/
  // ---------------------------------------------------------------------

  /** `\w`: an ASCII letter, digit or underscore. */
  predicate IsWordChar(c: char)
  {
    ('a' <= c <= 'z') || ('A' <= c <= 'Z') || ('0' <= c <= '9') || c == '_'
  }

  predicate IsSeparator(c: char)
  {
    c == '.' || c == '-'
  }

  /** `\w+([\.-]?\w+)*`: a word character, then either nothing, or again
      such a word, or one `.` or `-` followed by such a word. */
  predicate IsDottedWord(s: string)
    decreases |s|
  {
    && s != [] && IsWordChar(s[0])
    && (|s| == 1 || IsDottedWord(s[1..]) || (IsSeparator(s[1]) && IsDottedWord(s[2..])))
  }

  /** A dotted word holds only word characters and separators, and neither
      starts nor ends with a separator. */
  lemma {:induction false} DottedWordChars(s: string)
    requires IsDottedWord(s)
    ensures forall k :: 0 <= k < |s| ==> IsWordChar(s[k]) || IsSeparator(s[k])
    ensures IsWordChar(s[|s| - 1])
    decreases |s|
  {
    if |s| > 1 {
      if IsDottedWord(s[1..]) {
        DottedWordChars(s[1..]);
        assert forall k :: 1 <= k < |s| ==> s[k] == s[1..][k - 1];
      } else {
        DottedWordChars(s[2..]);
        assert forall k :: 2 <= k < |s| ==> s[k] == s[2..][k - 2];
      }
    }
  }

  /** `\w{2,3}`: the final label. */
  predicate IsTopLabel(t: string)
  {
    2 <= |t| <= 3 && forall k :: 0 <= k < |t| ==> IsWordChar(t[k])
  }

  /** A non-empty run of word characters is a dotted word. */
  lemma {:induction false} WordIsDotted(w: string)
    requires w != [] && forall k :: 0 <= k < |w| ==> IsWordChar(w[k])
    ensures IsDottedWord(w)
    decreases |w|
  {
    if |w| > 1 {
      WordIsDotted(w[1..]);
    }
  }

  /** Two dotted words joined by a `.` form one dotted word. */
  lemma {:induction false} DottedAppend(d: string, e: string)
    requires IsDottedWord(d) && IsDottedWord(e)
    ensures IsDottedWord(d + "." + e)
    decreases |d|
  {
    var s := d + "." + e;
    if |d| == 1 {
      assert s[1] == '.' && s[2..] == e;
    } else if IsDottedWord(d[1..]) {
      DottedAppend(d[1..], e);
      assert s[1..] == d[1..] + "." + e;
    } else {
      DottedAppend(d[2..], e);
      assert s[1] == d[1] && s[2..] == d[2..] + "." + e;
    }
  }

  /** The pattern's repeated group `(\.\w{2,3})+` is modelled as a single
      `.T`: every group before the last is a `.` and a word, which the
      domain's own `([\.-]?\w+)*` already matches, so an address with two
      such groups splits as L@D'.T with D' the domain and the first group. */
  lemma {:induction false} TopLabelsAbsorbed(l: string, d: string, t1: string, t2: string)
    requires IsDottedWord(l) && IsDottedWord(d) && IsTopLabel(t1) && IsTopLabel(t2)
    ensures EmailAt(l + "@" + d + "." + t1 + "." + t2, l, d + "." + t1, t2)
  {
    WordIsDotted(t1);
    DottedAppend(d, t1);
    assert l + "@" + d + "." + t1 + "." + t2 == l + "@" + (d + "." + t1) + "." + t2;
  }

  /** `s` splits as L@D.T at the given places. */
  ghost predicate EmailAt(s: string, l: string, d: string, t: string)
  {
    s == l + "@" + d + "." + t && IsDottedWord(l) && IsDottedWord(d) && IsTopLabel(t)
  }

  /** The language of the validator's pattern: L@D.T with L and D dotted
      words and T two or three word characters. */
  ghost predicate EmailPattern(s: string)
  {
    exists l, d, t :: EmailAt(s, l, d, t)
  }

  /** The validator: split at the first `@` and check both sides. */
  predicate ValidEmail(s: string)
  {
    match FirstIndex(s, '@')
    case None => false
    case Some(i) => ValidSides(s[..i], s[i + 1..])
  }

  /** The two sides of the `@`: the local part a dotted word, and the rest
      split at its last `.` into a dotted word and a top label. */
  predicate ValidSides(local: string, rest: string)
  {
    match LastIndex(rest, '.')
    case None => false
    case Some(j) => IsDottedWord(local) && IsDottedWord(rest[..j]) && IsTopLabel(rest[j + 1..])
  }

  /** The split the validator makes accepts exactly the pattern's language. */
  lemma {:induction false} ValidEmailMatchesPattern(s: string)
    ensures ValidEmail(s) <==> EmailPattern(s)
  {
    if ValidEmail(s) {
      ValidEmailSound(s);
    }
    if EmailPattern(s) {
      var l, d, t :| EmailAt(s, l, d, t);
      PatternSplits(s, l, d, t);
    }
  }

  /** What the validator accepts is of the pattern: the three pieces it
      checks are the witnesses. */
  lemma {:induction false} ValidEmailSound(s: string)
    requires ValidEmail(s)
    ensures EmailPattern(s)
  {
    var l, d, t := ValidEmailPieces(s);
    assert EmailAt(s, l, d, t);
  }

  /** The pieces the validator checks, put back together, give the string. */
  lemma {:induction false} ValidEmailPieces(s: string) returns (l: string, d: string, t: string)
    requires ValidEmail(s)
    ensures s == l + "@" + d + "." + t
    ensures IsDottedWord(l) && IsDottedWord(d) && IsTopLabel(t)
  {
    var i := FirstIndex(s, '@').value;
    var rest := s[i + 1..];
    var j := LastIndex(rest, '.').value;
    l, d, t := s[..i], rest[..j], rest[j + 1..];
    Reassemble(s, i, rest, j);
  }

  /** Cutting at an `@` and then at a `.` after it, and gluing the pieces
      back with those two characters, gives the string again. */
  lemma {:induction false} Reassemble(s: string, i: nat, rest: string, j: nat)
    requires i < |s| && s[i] == '@' && rest == s[i + 1..]
    requires j < |rest| && rest[j] == '.'
    ensures s == s[..i] + "@" + rest[..j] + "." + rest[j + 1..]
  {
    Around(rest, j, '.');
    Around(s, i, '@');
    assert s == s[..i] + "@" + rest;
  }

  /** A string is what precedes position `i`, its character there, and what
      follows. */
  lemma {:induction false} Around(s: string, i: nat, c: char)
    requires i < |s| && s[i] == c
    ensures s == s[..i] + [c] + s[i + 1..]
  {
  }

  /** A string of the pattern passes the validator: its first `@` ends the
      local part and the last `.` after it starts the top label. */
  lemma {:induction false} PatternSplits(s: string, l: string, d: string, t: string)
    requires EmailAt(s, l, d, t)
    ensures ValidEmail(s)
  {
    var rest := d + "." + t;
    assert s == l + "@" + rest;
    RestSplits(l, d, t);
    LocalSplits(l, rest);
  }

  /** With a dotted-word local part, the validator's cut at the first `@`
      hands it exactly that local part and the rest. */
  lemma {:induction false} LocalSplits(l: string, rest: string)
    requires IsDottedWord(l) && ValidSides(l, rest)
    ensures ValidEmail(l + "@" + rest)
  {
    LocalEndsAtFirstAt(l, rest);
    Halves(l, '@', rest);
  }

  /** The cut at the last `.` of D.T gives back D and T. */
  lemma {:induction false} RestSplits(l: string, d: string, t: string)
    requires IsDottedWord(l) && IsDottedWord(d) && IsTopLabel(t)
    ensures ValidSides(l, d + "." + t)
  {
    LabelStartsAfterLastDot(d, t);
    Halves(d, '.', t);
  }

  /** The two sides of a character glued between them are found again by
      slicing around its position. */
  lemma {:induction false} Halves(a: string, c: char, b: string)
    ensures (a + [c] + b)[..|a|] == a && (a + [c] + b)[|a| + 1..] == b
  {
  }

  /** No `@` is a word character or separator, so the first `@` after a
      dotted word is the one that follows it. */
  lemma {:induction false} LocalEndsAtFirstAt(l: string, rest: string)
    requires IsDottedWord(l)
    ensures FirstIndex(l + "@" + rest, '@') == Some(|l|)
  {
    DottedWordChars(l);
    var s := l + "@" + rest;
    assert s[|l|] == '@';
    assert forall k :: 0 <= k < |l| ==> s[k] == l[k];
  }

  /** A top label holds no `.`, so the last `.` before it is the one that
      precedes it. */
  lemma {:induction false} LabelStartsAfterLastDot(d: string, t: string)
    requires IsTopLabel(t)
    ensures LastIndex(d + "." + t, '.') == Some(|d|)
  {
    var rest := d + "." + t;
    assert rest[|d|] == '.';
    assert forall k :: |d| < k < |rest| ==> rest[k] == t[k - |d| - 1];
  }

  // ---------------------------------------------------------------------
  // Normalisation and validation of a document
  // ---------------------------------------------------------------------

  /** The email setters: lower-case, then trim. */
  function NormaliseEmail(e: string): string
  {
    Trim(ToLower(e))
  }

  /** A required string path holds a value that is non-empty after trimming. */
  predicate RequiredPresent(o: Option<string>)
  {
    o.Some? && Trim(o.value) != ""
  }

  /** Whether one path fails validation: a required path that is missing or
      empty after trimming, or an email the validator rejects. */
  predicate PathFails(f: ProfileFields, p: FieldPath)
  {
    match p
    case NamePath => !RequiredPresent(f.name)
    case EmailPath => !(RequiredPresent(f.email) && ValidEmail(NormaliseEmail(f.email.value)))
    case DesignationPath => !RequiredPresent(f.designation)
  }

  const AllPaths: set<FieldPath> := {NamePath, EmailPath, DesignationPath}

  /** The paths that fail validation. */
  function FailingPaths(f: ProfileFields): (paths: set<FieldPath>)
    ensures NamePath in paths <==> !RequiredPresent(f.name)
    ensures EmailPath in paths <==> !(RequiredPresent(f.email) && ValidEmail(NormaliseEmail(f.email.value)))
    ensures DesignationPath in paths <==> !RequiredPresent(f.designation)
  {
    set p | p in AllPaths && PathFails(f, p)
  }

  /** What every stored profile satisfies: required strings non-empty, all
      strings trimmed, the email lower-case and accepted by the validator. */
  ghost predicate Conforms(p: OperatorProfile)
  {
    && p.name != "" && Trimmed(p.name)
    && p.designation != "" && Trimmed(p.designation)
    && Trimmed(p.organization)
    && ValidEmail(p.email) && IsLower(p.email) && Trimmed(p.email)
  }

  /** Builds a document the way the schema does: setters first (trim, and
      lower-case for the email), defaults for a missing organization (the
      fixed text) and a missing `lastUpdated` (the time `now`), then the
      validators. */
  function CastFields(f: ProfileFields, now: int): (r: CastResult)
    ensures r.Cast? <==> FailingPaths(f) == {}
    ensures r.Rejected? ==> r.errors == FailingPaths(f)
    ensures r.Cast? ==> Conforms(r.profile)
    ensures r.Cast? ==> && r.profile.name == Trim(f.name.value)
                        && r.profile.email == NormaliseEmail(f.email.value)
                        && r.profile.designation == Trim(f.designation.value)
    ensures r.Cast? ==> r.profile.organization == (if f.organization.Some? then Trim(f.organization.value) else DefaultOrganization)
    ensures r.Cast? ==> r.profile.lastUpdated == (if f.lastUpdated.Some? then f.lastUpdated.value else now)
  {
    var errors := FailingPaths(f);
    if errors != {} then Rejected(errors)
    else
      assert NamePath !in errors && EmailPath !in errors && DesignationPath !in errors;
      SetFieldsConform(f, now);
      Cast(SetFields(f, now))
  }

  /** The document after the setters and defaults. */
  function SetFields(f: ProfileFields, now: int): OperatorProfile
    requires f.name.Some? && f.email.Some? && f.designation.Some?
  {
    OperatorProfile(
      Trim(f.name.value), NormaliseEmail(f.email.value), Trim(f.designation.value),
      if f.organization.Some? then Trim(f.organization.value) else DefaultOrganization,
      if f.lastUpdated.Some? then f.lastUpdated.value else now)
  }

  /** A document whose required paths are present and whose email passes
      the validator conforms once the setters have run. */
  lemma {:induction false} SetFieldsConform(f: ProfileFields, now: int)
    requires RequiredPresent(f.name) && RequiredPresent(f.designation)
    requires RequiredPresent(f.email) && ValidEmail(NormaliseEmail(f.email.value))
    ensures Conforms(SetFields(f, now))
  {
    NormalisedEmailIsLower(f.email.value);
    assert Trimmed(DefaultOrganization);
  }

  lemma {:induction false} NormalisedEmailIsLower(e: string)
    ensures IsLower(NormaliseEmail(e))
  {
    var low := ToLower(e);
    var r := Trim(low);
    TrimIsInfix(low);
    var i :| InfixAt(low, r, i);
    assert r == low[i..i + |r|];
    forall k | 0 <= k < |r| ensures !('A' <= r[k] <= 'Z') {
      assert r[k] == low[i + k];
    }
  }

  /** The fields a stored profile would be re-saved with. */
  function FieldsOf(p: OperatorProfile): ProfileFields
  {
    ProfileFields(Some(p.name), Some(p.email), Some(p.designation), Some(p.organization), Some(p.lastUpdated))
  }

  /** Normalisation is idempotent: a conforming profile casts to itself. */
  lemma {:induction false} CastConforming(p: OperatorProfile, now: int)
    requires Conforms(p)
    ensures CastFields(FieldsOf(p), now) == Cast(p)
  {
    TrimOfTrimmed(p.name);
    TrimOfTrimmed(p.designation);
    TrimOfTrimmed(p.organization);
    TrimOfTrimmed(p.email);
    assert ToLower(p.email) == p.email;
  }
}

// The address a recipient gives (src/api/addressRequestApi.ts): tidied, checked, and
// kept in one form. Which characters are hidden, printable or fit for a name is left
// to the rules passed in.
module GivenAddress {
  import opened Wrappers
  import opened Settings

  // ---- One field, tidied ---------------------------------------------------------------

  // Each run of blanks becomes one space.
  function CollapseBlanks(s: string): string {
    if s == "" then ""
    else if !Blank(s[0]) then [s[0]] + CollapseBlanks(s[1..])
    else if |s| > 1 && Blank(s[1]) then CollapseBlanks(s[1..])
    else " " + CollapseBlanks(s[1..])
  }

  function Tidy(s: string): string {
    CollapseBlanks(Trim(s))
  }

  predicate SingleSpaced(s: string) {
    && (forall i :: 0 <= i < |s| && Blank(s[i]) ==> s[i] == ' ')
    && (forall i :: 0 <= i < |s| - 1 && Blank(s[i]) ==> !Blank(s[i + 1]))
  }

  predicate Bare(s: string) {
    s != "" ==> !Blank(s[0]) && !Blank(s[|s| - 1])
  }

  // No blank at either end, and single spaces between.
  predicate IsTidy(s: string) {
    Bare(s) && SingleSpaced(s)
  }

  lemma {:induction false} TrimBares(s: string)
    ensures Bare(Trim(s)) && (Bare(s) ==> Trim(s) == s)
  {
    TrimStartHolds(s);
    TrimEndHolds(TrimStart(s));
  }

  lemma {:induction false} OneInFront(head: char, rest: string)
    requires SingleSpaced(rest) && (Blank(head) ==> head == ' ' && (rest == "" || !Blank(rest[0])))
    ensures SingleSpaced([head] + rest)
  {
    var s := [head] + rest;
    forall i | 0 <= i < |s| && Blank(s[i]) ensures s[i] == ' ' && (i < |s| - 1 ==> !Blank(s[i + 1])) {
      if i > 0 { assert s[i] == rest[i - 1]; }
    }
  }

  // Collapsing leaves blanks at the ends where there were some.
  ghost predicate SameEnds(s: string, c: string) {
    && (c == "" <==> s == "")
    && (s != "" ==> (Blank(c[0]) <==> Blank(s[0])) && (Blank(c[|c| - 1]) <==> Blank(s[|s| - 1])))
  }

  lemma {:induction false} CollapseSingles(s: string)
    ensures SameEnds(s, CollapseBlanks(s)) && SingleSpaced(CollapseBlanks(s))
  {
    if s != "" {
      CollapseSingles(s[1..]);
      var rest, head := CollapseBlanks(s[1..]), if Blank(s[0]) then ' ' else s[0];
      if !(Blank(s[0]) && |s| > 1 && Blank(s[1])) {
        OneInFront(head, rest);
        assert CollapseBlanks(s) == [head] + rest;
      }
    }
  }

  lemma {:induction false} SingleStays(s: string)
    requires SingleSpaced(s)
    ensures CollapseBlanks(s) == s
  {
    if s != "" {
      assert SingleSpaced(s[1..]) by {
        assert forall i :: 0 <= i < |s[1..]| ==> s[1..][i] == s[i + 1];
      }
      SingleStays(s[1..]);
    }
  }

  // Tidying makes a text tidy, and leaves a tidy text alone.
  lemma {:induction false} TidyIsTidy(s: string)
    ensures IsTidy(Tidy(s))
    ensures Tidy(s) == s <==> IsTidy(s)
  {
    TrimBares(s);
    CollapseSingles(Trim(s));
    if IsTidy(s) { SingleStays(s); }
  }

  // The characters that are not blank, each with whether a blank, or nothing, comes
  // right before it.
  function Marked(s: string, after: bool): seq<(char, bool)> {
    if s == "" then []
    else if Blank(s[0]) then Marked(s[1..], true)
    else [(s[0], after)] + Marked(s[1..], false)
  }

  // Every blank at the start of s comes after one already.
  lemma {:induction false} CollapseKeepsMarks(s: string, after: bool)
    ensures Marked(CollapseBlanks(s), after) == Marked(s, after)
  {
    if s != "" {
      var c := CollapseBlanks(s[1..]);
      if !Blank(s[0]) {
        CollapseKeepsMarks(s[1..], false);
        assert ([s[0]] + c)[1..] == c;
      } else {
        CollapseKeepsMarks(s[1..], true);
        assert (" " + c)[1..] == c;
        if |s| > 1 && Blank(s[1]) {
          assert Marked(s[1..], after) == Marked(s[1..], true);
          CollapseKeepsMarks(s[1..], after);
        }
      }
    }
  }

  lemma {:induction false} TrimStartKeepsMarks(s: string)
    ensures Marked(TrimStart(s), true) == Marked(s, true)
  {
    if s != "" && Blank(s[0]) { TrimStartKeepsMarks(s[1..]); }
  }

  lemma {:induction false} LastBlankHasNoMark(s: string, after: bool)
    requires s != "" && Blank(s[|s| - 1])
    ensures Marked(s[..|s| - 1], after) == Marked(s, after)
  {
    if |s| > 1 {
      LastBlankHasNoMark(s[1..], Blank(s[0]));
      assert s[1..][..|s| - 2] == s[..|s| - 1][1..];
    }
  }

  lemma {:induction false} TrimEndKeepsMarks(s: string, after: bool)
    ensures Marked(TrimEnd(s), after) == Marked(s, after)
  {
    if s != "" && Blank(s[|s| - 1]) {
      LastBlankHasNoMark(s, after);
      TrimEndKeepsMarks(s[..|s| - 1], after);
    }
  }

  // Tidying keeps the words: the same characters, apart where they were apart.
  lemma {:induction false} TidyKeepsWords(s: string)
    ensures Marked(Tidy(s), true) == Marked(s, true)
  {
    CollapseKeepsMarks(Trim(s), true);
    TrimEndKeepsMarks(TrimStart(s), true);
    TrimStartKeepsMarks(s);
  }

  // ---- The address -----------------------------------------------------------------------

  datatype Field = Absent | Null | Text(text: string) | Other

  datatype Body = Body(name: Field, line1: Field, line2: Field, city: Field, state: Field, postalCode: Field)

  datatype Address = Address(
    name: Option<string>, line1: string, line2: Option<string>, city: string, state: string, postalCode: string)

  datatype Problem = Name | Line1 | Line2 | City | State | PostalCode

  datatype Given = Ok(address: Address) | Bad(fields: seq<Problem>, unprintable: seq<Problem>)

  // Whether a text is short enough and holds nothing hidden or unprintable,
  // looks like a name, or shows a character the printer cannot print.
  datatype Rules = Rules(fits: (string, nat) -> bool, nameLike: string -> bool, printerCannot: string -> bool)

  const STATES_A_TO_K: seq<string> := [
    "AL", "AK", "AZ", "AR", "CA", "CO", "CT", "DE", "DC", "FL", "GA", "HI", "ID", "IL", "IN", "IA", "KS"]
  const STATES_K_TO_N: seq<string> := [
    "KY", "LA", "ME", "MD", "MA", "MI", "MN", "MS", "MO", "MT", "NE", "NV", "NH", "NJ", "NM", "NY", "NC"]
  const STATES_N_TO_W: seq<string> := [
    "ND", "OH", "OK", "OR", "PA", "RI", "SC", "SD", "TN", "TX", "UT", "VT", "VA", "WA", "WV", "WI", "WY"]
  const TERRITORIES: seq<string> := ["AS", "GU", "MP", "PR", "VI", "FM", "MH", "PW", "AA", "AE", "AP"]

  const US_STATE_CODES := STATES_A_TO_K + STATES_K_TO_N + STATES_N_TO_W + TERRITORIES

  function TidyField(f: Field): Option<string> {
    if f.Text? then Some(Tidy(f.text)) else None
  }

  predicate Digits(s: string) {
    forall i :: 0 <= i < |s| ==> '0' <= s[i] <= '9'
  }

  // Nine digits typed without the hyphen are a ZIP+4.
  function Hyphenated(zip: string): string {
    if |zip| == 9 && Digits(zip) then zip[..5] + "-" + zip[5..] else zip
  }

  predicate IsZip(s: string) {
    || (|s| == 5 && Digits(s))
    || (|s| == 10 && Digits(s[..5]) && s[5] == '-' && Digits(s[6..]))
  }

  predicate AreDigits(s: string, n: nat) {
    |s| == n && forall c :: c in s ==> c in {'0', '1', '2', '3', '4', '5', '6', '7', '8', '9'}
  }

  lemma {:induction false} DigitsAre(s: string)
    ensures Digits(s) <==> AreDigits(s, |s|)
  {
    if Digits(s) {
      forall c | c in s ensures c in {'0', '1', '2', '3', '4', '5', '6', '7', '8', '9'} {
        var i :| 0 <= i < |s| && s[i] == c;
      }
    }
    if AreDigits(s, |s|) {
      forall i | 0 <= i < |s| ensures '0' <= s[i] <= '9' { assert s[i] in s; }
    }
  }

  // A ZIP code is five digits, or five and four with a hyphen between.
  ghost predicate IsZipCode(z: string) {
    AreDigits(z, 5) || exists five, four :: AreDigits(five, 5) && AreDigits(four, 4) && z == five + "-" + four
  }

  lemma {:induction false} ZipsAre(z: string)
    ensures IsZip(z) <==> IsZipCode(z)
  {
    DigitsAre(z);
    if |z| == 10 {
      DigitsAre(z[..5]);
      DigitsAre(z[6..]);
      assert z == z[..5] + [z[5]] + z[6..];
    }
    forall five, four | AreDigits(five, 5) && AreDigits(four, 4) && z == five + "-" + four ensures IsZip(z) {
      assert z[..5] == five && z[6..] == four;
      DigitsAre(five);
      DigitsAre(four);
    }
  }

  // Nine digits are taken for a ZIP+4; any other text stands as it was typed.
  lemma {:induction false} NineDigitsAreHyphenated(typed: string)
    ensures Hyphenated(typed) == if AreDigits(typed, 9) then typed[..5] + "-" + typed[5..] else typed
  {
    DigitsAre(typed);
  }

  function StateOf(body: Body): string {
    if body.state.Text? then Upper(Tidy(body.state.text)) else ""
  }

  function ZipOf(body: Body): string {
    if body.postalCode.Text? then Hyphenated(Tidy(body.postalCode.text)) else ""
  }

  // A field that may be left out, and one that may not.
  predicate GoodOptional(f: Field, limit: nat, rules: Rules) {
    f.Absent? || f.Null? || (f.Text? && rules.fits(Tidy(f.text), limit))
  }

  predicate GoodRequired(f: Field, limit: nat, rules: Rules) {
    f.Text? && Tidy(f.text) != "" && rules.fits(Tidy(f.text), limit)
  }

  predicate GoodName(f: Field, rules: Rules) {
    GoodOptional(f, 100, rules) && (f.Text? ==> Tidy(f.text) == "" || rules.nameLike(Tidy(f.text)))
  }

  // Whether a field says what it must.
  predicate Right(body: Body, p: Problem, rules: Rules) {
    match p
    case Name => GoodName(body.name, rules)
    case Line1 => GoodRequired(body.line1, 100, rules)
    case Line2 => GoodOptional(body.line2, 100, rules)
    case City => GoodRequired(body.city, 60, rules)
    case State => StateOf(body) in US_STATE_CODES
    case PostalCode => IsZip(ZipOf(body))
  }

  // The address a body gives, when every field of it is good.
  predicate Gives(body: Body, rules: Rules, a: Address) {
    && GoodName(body.name, rules) && IsLeftOutOr(a.name, body.name)
    && GoodRequired(body.line1, 100, rules) && Some(a.line1) == TidyField(body.line1)
    && GoodOptional(body.line2, 100, rules) && IsLeftOutOr(a.line2, body.line2)
    && GoodRequired(body.city, 60, rules) && Some(a.city) == TidyField(body.city)
    && a.state == StateOf(body) && a.state in US_STATE_CODES
    && a.postalCode == ZipOf(body) && IsZip(a.postalCode)
  }

  // What an optional field says, or nothing when it is left out or blank.
  predicate IsLeftOutOr(kept: Option<string>, f: Field) {
    && (kept.Some? <==> f.Text? && Tidy(f.text) != "")
    && (kept.Some? ==> kept.value == Tidy(f.text))
  }

  function NotEmpty(s: Option<string>): Option<string> {
    if s == Some("") then None else s
  }

  function Typed(body: Body, p: Problem): Option<string> {
    match p
    case Name => TidyField(body.name)
    case Line1 => TidyField(body.line1)
    case Line2 => TidyField(body.line2)
    case City => TidyField(body.city)
    case State => None
    case PostalCode => None
  }

  function Unprintable(fields: seq<Problem>, body: Body, rules: Rules): (r: seq<Problem>)
    ensures forall p :: p in r <==>
      p in fields && Typed(body, p).Some? && rules.printerCannot(Typed(body, p).value)
  {
    if fields == [] then []
    else
      var typed := Typed(body, fields[0]);
      (if typed.Some? && rules.printerCannot(typed.value) then [fields[0]] else [])
      + Unprintable(fields[1..], body, rules)
  }

  // A body gives one address at most.
  lemma {:induction false} GivesOneAddress(body: Body, rules: Rules, a: Address, b: Address)
    requires Gives(body, rules, a) && Gives(body, rules, b)
    ensures a == b
  {
  }

  method Note(fields: seq<Problem>, p: Problem, wrong: bool) returns (r: seq<Problem>)
    ensures forall q :: q in r <==> q in fields || (q == p && wrong)
  {
    r := if wrong then fields + [p] else fields;
  }

  predicate BadName(f: Field, rules: Rules) {
    !f.Absent? && !f.Null?
    && (!f.Text? || !rules.fits(Tidy(f.text), 100) || (Tidy(f.text) != "" && !rules.nameLike(Tidy(f.text))))
  }

  // The checks of the name and the street, in the order they are reported.
  method WrongLines(body: Body, rules: Rules) returns (fields: seq<Problem>)
    ensures forall p :: p in fields <==> (p.Name? || p.Line1? || p.Line2?) && !Right(body, p, rules)
  {
    var line1, line2 := TidyField(body.line1), TidyField(body.line2);
    var wrong := BadName(body.name, rules);
    assert wrong <==> !Right(body, Name, rules);
    fields := Note([], Name, wrong);
    wrong := line1.None? || line1.value == "" || !rules.fits(line1.value, 100);
    assert wrong <==> !Right(body, Line1, rules);
    fields := Note(fields, Line1, wrong);
    wrong := !body.line2.Absent? && !body.line2.Null? && (line2.None? || !rules.fits(line2.value, 100));
    assert wrong <==> !Right(body, Line2, rules);
    fields := Note(fields, Line2, wrong);
  }

  // All of them.
  method WrongFields(body: Body, rules: Rules) returns (fields: seq<Problem>)
    ensures forall p :: p in fields <==> !Right(body, p, rules)
  {
    fields := WrongLines(body, rules);
    var city := TidyField(body.city);
    var wrong := city.None? || city.value == "" || !rules.fits(city.value, 60);
    assert wrong <==> !Right(body, City, rules);
    fields := Note(fields, City, wrong);
    fields := Note(fields, State, StateOf(body) !in US_STATE_CODES);
    fields := Note(fields, PostalCode, !IsZip(ZipOf(body)));
  }

  method GivenAddressOf(body: Body, rules: Rules) returns (r: Given)
    ensures r.Ok? ==> forall a :: Gives(body, rules, a) <==> a == r.address
    ensures r.Bad? ==> r.fields != [] && forall a :: !Gives(body, rules, a)
    ensures r.Bad? ==> forall p :: p in r.fields <==> !Right(body, p, rules)
    ensures r.Bad? ==> forall p :: p in r.unprintable <==>
      !Right(body, p, rules) && Typed(body, p).Some? && rules.printerCannot(Typed(body, p).value)
  {
    var fields := WrongFields(body, rules);
    if fields != [] {
      assert fields[0] in fields;
      return Bad(fields, Unprintable(fields, body, rules));
    }
    assert Right(body, Name, rules) && Right(body, Line1, rules) && Right(body, Line2, rules);
    assert Right(body, City, rules) && Right(body, State, rules) && Right(body, PostalCode, rules);
    r := Ok(Address(NotEmpty(TidyField(body.name)), TidyField(body.line1).value, NotEmpty(TidyField(body.line2)),
                    TidyField(body.city).value, StateOf(body), ZipOf(body)));
    forall a | Gives(body, rules, a) ensures a == r.address { GivesOneAddress(body, rules, a, r.address); }
  }

  // ---- Given back ---------------------------------------------------------------------------

  function Optional(s: Option<string>): Field {
    if s.Some? then Text(s.value) else Absent
  }

  // The body that says an address as it was accepted.
  function BodyOf(a: Address): Body {
    Body(Optional(a.name), Text(a.line1), Optional(a.line2), Text(a.city), Text(a.state), Text(a.postalCode))
  }

  ghost predicate Capitals(codes: seq<string>) {
    forall i :: 0 <= i < |codes| ==> |codes[i]| == 2 && 'A' <= codes[i][0] <= 'Z' && 'A' <= codes[i][1] <= 'Z'
  }

  lemma {:induction false} CodesAreCapitals()
    ensures Capitals(STATES_A_TO_K) && Capitals(STATES_K_TO_N) && Capitals(STATES_N_TO_W) && Capitals(TERRITORIES)
  {
  }

  predicate TwoCapitals(s: string) {
    |s| == 2 && 'A' <= s[0] <= 'Z' && 'A' <= s[1] <= 'Z'
  }

  lemma {:induction false} StateIsCapitals(state: string)
    requires state in US_STATE_CODES
    ensures TwoCapitals(state)
  {
    CodesAreCapitals();
    assert state in STATES_A_TO_K || state in STATES_K_TO_N || state in STATES_N_TO_W || state in TERRITORIES;
  }

  lemma {:induction false} CapitalsStay(state: string)
    requires TwoCapitals(state)
    ensures Upper(Tidy(state)) == state
  {
    TidyIsTidy(state);
  }

  lemma {:induction false} ZipStays(zip: string)
    requires IsZip(zip)
    ensures Hyphenated(Tidy(zip)) == zip
  {
    assert forall i :: 0 <= i < |zip| ==> !Blank(zip[i]) by {
      if |zip| == 10 {
        assert forall i :: 0 <= i < 5 ==> zip[i] == zip[..5][i];
        assert forall i :: 6 <= i < 10 ==> zip[i] == zip[6..][i - 6];
      }
    }
    TidyIsTidy(zip);
  }

  lemma {:induction false} OptionalStays(f: Field, limit: nat, rules: Rules)
    requires GoodOptional(f, limit, rules)
    ensures var kept := NotEmpty(TidyField(f));
      GoodOptional(Optional(kept), limit, rules) && NotEmpty(TidyField(Optional(kept))) == kept
  {
    if f.Text? {
      TidyIsTidy(f.text);
      TidyIsTidy(Tidy(f.text));
    }
  }

  lemma {:induction false} RequiredStays(f: Field, limit: nat, rules: Rules)
    requires GoodRequired(f, limit, rules)
    ensures GoodRequired(Text(Tidy(f.text)), limit, rules) && Tidy(Tidy(f.text)) == Tidy(f.text)
  {
    TidyIsTidy(f.text);
    TidyIsTidy(Tidy(f.text));
  }

  lemma {:induction false} NameStays(f: Field, rules: Rules)
    requires GoodName(f, rules)
    ensures GoodName(Optional(NotEmpty(TidyField(f))), rules)
  {
    OptionalStays(f, 100, rules);
    if f.Text? { TidyIsTidy(f.text); TidyIsTidy(Tidy(f.text)); }
  }

  // An accepted address, given back, is accepted again unchanged.
  lemma {:induction false} AcceptedIsFixed(body: Body, rules: Rules, a: Address)
    requires Gives(body, rules, a)
    ensures Gives(BodyOf(a), rules, a)
  {
    NameStays(body.name, rules);
    OptionalStays(body.name, 100, rules);
    RequiredStays(body.line1, 100, rules);
    OptionalStays(body.line2, 100, rules);
    RequiredStays(body.city, 60, rules);
    StateIsCapitals(a.state);
    CapitalsStay(a.state);
    ZipStays(a.postalCode);
  }
}

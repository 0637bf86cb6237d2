// The Post Login flow check (scripts/check-auth0-tenant.ts). An Action's code is
// compared by the hash of its canonical form; the hash is taken to be injective.
module TenantCheck {
  import opened Wrappers
  import opened Settings

  // ---- The canonical form ------------------------------------------------------------

  // \r\n and a lone \r become \n.
  function UnifyEndings(s: string): string {
    if s == "" then ""
    else if s[0] == '\r' then
      if |s| > 1 && s[1] == '\n' then "\n" + UnifyEndings(s[2..]) else "\n" + UnifyEndings(s[1..])
    else [s[0]] + UnifyEndings(s[1..])
  }

  function SplitAtNewlines(s: string): (lines: seq<string>)
    ensures lines != []
  {
    if s == "" then [""]
    else
      var rest := SplitAtNewlines(s[1..]);
      if s[0] == '\n' then [""] + rest else [[s[0]] + rest[0]] + rest[1..]
  }

  function Trimmed(lines: seq<string>): (r: seq<string>)
    ensures |r| == |lines|
  {
    seq(|lines|, i requires 0 <= i < |lines| => TrimEnd(lines[i]))
  }

  function Joined(lines: seq<string>): string {
    if lines == [] then "" else if |lines| == 1 then lines[0] else lines[0] + "\n" + Joined(lines[1..])
  }

  function WithoutLastNewlines(s: string): string {
    if s != "" && s[|s| - 1] == '\n' then WithoutLastNewlines(s[..|s| - 1]) else s
  }

  function NormalizeCode(code: string): string {
    WithoutLastNewlines(Joined(Trimmed(SplitAtNewlines(UnifyEndings(code))))) + "\n"
  }

  // ---- What it stands for: the lines, but for their ends and the blank ones last ----

  // Lines end at \n, \r\n or \r.
  function Lines(s: string): (lines: seq<string>)
    ensures lines != []
  {
    if s == "" then [""]
    else if s[0] == '\r' && |s| > 1 && s[1] == '\n' then [""] + Lines(s[2..])
    else
      var rest := Lines(s[1..]);
      if s[0] == '\n' || s[0] == '\r' then [""] + rest else [[s[0]] + rest[0]] + rest[1..]
  }

  function WithoutLastBlanks(lines: seq<string>): seq<string> {
    if lines != [] && lines[|lines| - 1] == "" then WithoutLastBlanks(lines[..|lines| - 1]) else lines
  }

  function Content(s: string): seq<string> {
    WithoutLastBlanks(Trimmed(Lines(s)))
  }

  lemma {:induction false} UnifiedSplitsIntoLines(s: string)
    ensures SplitAtNewlines(UnifyEndings(s)) == Lines(s)
    decreases |s|
  {
    if s == "" {
    } else if s[0] == '\r' && |s| > 1 && s[1] == '\n' {
      UnifiedSplitsIntoLines(s[2..]);
      assert ("\n" + UnifyEndings(s[2..]))[1..] == UnifyEndings(s[2..]);
    } else {
      UnifiedSplitsIntoLines(s[1..]);
      var head := if s[0] == '\r' then '\n' else s[0];
      assert UnifyEndings(s) == [head] + UnifyEndings(s[1..]);
      assert ([head] + UnifyEndings(s[1..]))[1..] == UnifyEndings(s[1..]);
    }
  }

  predicate OneLine(s: string) {
    '\n' !in s && '\r' !in s
  }

  ghost predicate AllOneLine(lines: seq<string>) {
    forall i :: 0 <= i < |lines| ==> OneLine(lines[i])
  }

  lemma {:induction false} LinesAreOneLine(s: string)
    ensures AllOneLine(Lines(s))
    decreases |s|
  {
    if s == "" {
    } else if s[0] == '\r' && |s| > 1 && s[1] == '\n' {
      LinesAreOneLine(s[2..]);
    } else {
      LinesAreOneLine(s[1..]);
    }
  }

  // A line list that a canonical text holds.
  ghost predicate Canonical(lines: seq<string>) {
    && AllOneLine(lines)
    && (forall i :: 0 <= i < |lines| ==> TrimEnd(lines[i]) == lines[i])
    && (lines != [] ==> lines[|lines| - 1] != "")
  }

  lemma {:induction false} BlanksLeaveCanonical(lines: seq<string>)
    requires AllOneLine(lines) && forall i :: 0 <= i < |lines| ==> TrimEnd(lines[i]) == lines[i]
    ensures Canonical(WithoutLastBlanks(lines))
  {
    if lines != [] && lines[|lines| - 1] == "" { BlanksLeaveCanonical(lines[..|lines| - 1]); }
  }

  lemma {:induction false} ContentIsCanonical(s: string)
    ensures Canonical(Content(s))
  {
    LinesAreOneLine(s);
    forall i | 0 <= i < |Lines(s)|
      ensures OneLine(Trimmed(Lines(s))[i]) && TrimEnd(Trimmed(Lines(s))[i]) == Trimmed(Lines(s))[i]
    {
      TrimEndHolds(Lines(s)[i]);
    }
    BlanksLeaveCanonical(Trimmed(Lines(s)));
  }

  lemma {:induction false} JoinedEnds(lines: seq<string>, last: string)
    requires lines != []
    ensures Joined(lines + [last]) == Joined(lines) + "\n" + last
  {
    if |lines| > 1 {
      JoinedEnds(lines[1..], last);
      assert (lines + [last])[1..] == lines[1..] + [last];
    }
  }

  // Dropping the last newlines is dropping the last blank lines.
  lemma {:induction false} StripDropsBlanks(lines: seq<string>)
    requires AllOneLine(lines)
    ensures WithoutLastNewlines(Joined(lines)) == Joined(WithoutLastBlanks(lines))
  {
    if lines == [] {
    } else {
      var n := |lines| - 1;
      if lines[n] == "" {
        StripDropsBlanks(lines[..n]);
        if n > 0 {
          JoinedEnds(lines[..n], "");
          assert lines == lines[..n] + [""];
          assert Joined(lines) == Joined(lines[..n]) + "\n";
          assert (Joined(lines[..n]) + "\n")[..|Joined(lines[..n])|] == Joined(lines[..n]);
        }
      } else {
        if n > 0 {
          JoinedEnds(lines[..n], lines[n]);
          assert lines == lines[..n] + [lines[n]];
        }
        assert Joined(lines)[|Joined(lines)| - 1] == lines[n][|lines[n]| - 1];
      }
    }
  }

  // The canonical form is the content, one line after another.
  lemma {:induction false} NormalizedIsContent(code: string)
    ensures NormalizeCode(code) == Joined(Content(code)) + "\n"
  {
    UnifiedSplitsIntoLines(code);
    LinesAreOneLine(code);
    forall i | 0 <= i < |Lines(code)| ensures OneLine(Trimmed(Lines(code))[i]) {
      TrimEndHolds(Lines(code)[i]);
    }
    StripDropsBlanks(Trimmed(Lines(code)));
  }

  lemma {:induction false} LineThen(line: string, rest: string)
    requires OneLine(line)
    ensures Lines(line + "\n" + rest) == [line] + Lines(rest)
  {
    var s := line + "\n" + rest;
    if line == "" {
      assert s[1..] == rest;
    } else {
      assert line[0] in line && s[0] == line[0];
      LineThen(line[1..], rest);
      assert s[1..] == line[1..] + "\n" + rest;
      assert [line[0]] + line[1..] == line;
    }
  }

  lemma {:induction false} Associates<T>(a: seq<T>, b: seq<T>, c: seq<T>)
    ensures (a + b) + c == a + (b + c)
  {
  }

  lemma {:induction false} HeadAndRest<T>(s: seq<T>, last: T)
    requires s != []
    ensures [s[0]] + (s[1..] + [last]) == s + [last]
  {
  }

  lemma {:induction false} LinesOfJoined(lines: seq<string>)
    requires AllOneLine(lines) && lines != []
    ensures Lines(Joined(lines) + "\n") == lines + [""]
  {
    if |lines| == 1 {
      LineThen(lines[0], "");
      assert lines[0] + "\n" + "" == Joined(lines) + "\n";
      assert lines == [lines[0]];
    } else {
      LinesOfJoined(lines[1..]);
      LineThen(lines[0], Joined(lines[1..]) + "\n");
      Associates(lines[0] + "\n", Joined(lines[1..]), "\n");
      HeadAndRest(lines, "");
    }
  }

  lemma {:induction false} OneNewlineHasNoContent()
    ensures Content("\n") == []
  {
    assert "\n"[1..] == "";
    assert Lines("\n") == ["", ""];
    assert Trimmed(["", ""]) == ["", ""];
    assert ["", ""][..1] == [""] && [""][..0] == [];
  }

  lemma {:induction false} JoinedKeepsContent(c: seq<string>)
    requires AllOneLine(c) && c != [] && Trimmed(c + [""]) == c + [""] && WithoutLastBlanks(c) == c
    ensures Content(Joined(c) + "\n") == c
  {
    LinesOfJoined(c);
    assert (c + [""])[..|c|] == c;
  }

  // Normalizing changes nothing of the content.
  lemma {:induction false} NormalizingKeepsContent(code: string)
    ensures Content(NormalizeCode(code)) == Content(code)
  {
    var c := Content(code);
    NormalizedIsContent(code);
    ContentIsCanonical(code);
    if c == [] {
      assert Joined(c) + "\n" == "\n";
      OneNewlineHasNoContent();
    } else {
      assert Trimmed(c + [""]) == c + [""];
      JoinedKeepsContent(c);
    }
  }

  // Two texts have one canonical form exactly when they differ only in line
  // endings, trailing whitespace of lines and trailing blank lines.
  lemma {:induction false} SameFormMeansSameContent(a: string, b: string)
    ensures NormalizeCode(a) == NormalizeCode(b) <==> Content(a) == Content(b)
  {
    NormalizedIsContent(a);
    NormalizedIsContent(b);
    NormalizingKeepsContent(a);
    NormalizingKeepsContent(b);
  }

  lemma {:induction false} NormalizeIsIdempotent(code: string)
    ensures NormalizeCode(NormalizeCode(code)) == NormalizeCode(code)
  {
    NormalizingKeepsContent(code);
    SameFormMeansSameContent(NormalizeCode(code), code);
  }

  // ---- The Post Login flow ----------------------------------------------------------

  const LINKING_SECRETS := ["AUTH0_DOMAIN", "LINKING_CLIENT_ID", "LINKING_CLIENT_SECRET"]
  const AUTH0_SDK_VERSION := "7.2.0"

  datatype Action = Action(
    name: string, code: string, allChangesDeployed: Option<bool>,
    dependencies: seq<(string, string)>, secretNames: seq<string>)

  datatype Kind = Link | Claim

  datatype Line =
    | Matches(index: nat, kind: Option<Kind>) | Undeployed(index: nat)
    | Dependency(version: Option<string>) | Secrets(missing: seq<string>)
    | Present(file: Kind) | LinkBeforeClaim

  datatype CheckResult = CheckResult(ok: bool, line: Line)

  // The hashes of the two files stand for their canonical forms.
  datatype Expected = Expected(link: string, claim: string)

  function KindOf(action: Action, expected: Expected): Option<Kind> {
    if NormalizeCode(action.code) == expected.link then Some(Link)
    else if NormalizeCode(action.code) == expected.claim then Some(Claim)
    else None
  }

  function SdkVersion(dependencies: seq<(string, string)>): Option<string> {
    if dependencies == [] then None
    else if dependencies[0].0 == "auth0" then Some(dependencies[0].1)
    else SdkVersion(dependencies[1..])
  }

  // The version of the first dependency on the SDK.
  ghost predicate IsSdkVersion(dependencies: seq<(string, string)>, version: Option<string>) {
    match version
    case None => forall i :: 0 <= i < |dependencies| ==> dependencies[i].0 != "auth0"
    case Some(v) => exists i :: 0 <= i < |dependencies| && dependencies[i] == ("auth0", v)
                                && forall j :: 0 <= j < i ==> dependencies[j].0 != "auth0"
  }

  lemma {:induction false} SdkVersionIsFirst(dependencies: seq<(string, string)>)
    ensures IsSdkVersion(dependencies, SdkVersion(dependencies))
  {
    if dependencies != [] && dependencies[0].0 != "auth0" {
      SdkVersionIsFirst(dependencies[1..]);
      assert forall i :: 0 < i < |dependencies| ==> dependencies[i] == dependencies[1..][i - 1];
      var rest := SdkVersion(dependencies[1..]);
      if rest.Some? {
        var i :| 0 <= i < |dependencies[1..]| && dependencies[1..][i] == ("auth0", rest.value)
                 && forall j :: 0 <= j < i ==> dependencies[1..][j].0 != "auth0";
        assert dependencies[i + 1] == ("auth0", rest.value);
      }
    } else if dependencies != [] {
      assert dependencies[0] == ("auth0", dependencies[0].1);
    }
  }

  function Missing(names: seq<string>, held: seq<string>): (missing: seq<string>)
    ensures forall n :: n in missing <==> n in names && n !in held
  {
    if names == [] then []
    else (if names[0] in held then [] else [names[0]]) + Missing(names[1..], held)
  }

  predicate AllOk(results: seq<CheckResult>) {
    forall i :: 0 <= i < |results| ==> results[i].ok
  }

  // ---- When the flow is right, told from the files' content ---------------------------

  ghost predicate Holds(action: Action, file: string) {
    Content(action.code) == Content(file)
  }

  ghost predicate GoodAction(action: Action, linkFile: string, claimFile: string) {
    && (Holds(action, linkFile) || Holds(action, claimFile))
    && action.allChangesDeployed != Some(false)
    && (Holds(action, linkFile) ==> Equipped(action))
  }

  predicate Equipped(action: Action) {
    && SdkVersion(action.dependencies) == Some("7.2.0")
    && forall n :: n in {"AUTH0_DOMAIN", "LINKING_CLIENT_ID", "LINKING_CLIENT_SECRET"} ==> n in action.secretNames
  }

  ghost predicate GoodFlow(bound: seq<Action>, linkFile: string, claimFile: string) {
    && (forall i :: 0 <= i < |bound| ==> GoodAction(bound[i], linkFile, claimFile))
    && (exists j :: 0 <= j < |bound| && !Holds(bound[j], linkFile) && Holds(bound[j], claimFile))
    && (exists i :: 0 <= i < |bound| && Holds(bound[i], linkFile)
          && forall j :: 0 <= j <= i ==> Holds(bound[j], linkFile) || !Holds(bound[j], claimFile))
  }

  ghost predicate First(kinds: seq<Option<Kind>>, kind: Kind, position: int) {
    && -1 <= position < |kinds|
    && (position >= 0 ==> kinds[position] == Some(kind))
    && (forall i :: 0 <= i < (if position < 0 then |kinds| else position) ==> kinds[i] != Some(kind))
  }

  ghost predicate KindsAre(kinds: seq<Option<Kind>>, bound: seq<Action>, expected: Expected) {
    |kinds| == |bound| && forall i :: 0 <= i < |bound| ==> kinds[i] == KindOf(bound[i], expected)
  }

  lemma {:induction false} KindIsContent(action: Action, linkFile: string, claimFile: string)
    ensures var kind := KindOf(action, Expected(NormalizeCode(linkFile), NormalizeCode(claimFile)));
      && (kind == Some(Link) <==> Holds(action, linkFile))
      && (kind == Some(Claim) <==> !Holds(action, linkFile) && Holds(action, claimFile))
  {
    SameFormMeansSameContent(action.code, linkFile);
    SameFormMeansSameContent(action.code, claimFile);
  }

  lemma {:induction false} OkSplits(a: seq<CheckResult>, b: seq<CheckResult>)
    ensures AllOk(a + b) <==> AllOk(a) && AllOk(b)
  {
    assert forall i :: 0 <= i < |a| ==> (a + b)[i] == a[i];
    assert forall i :: 0 <= i < |b| ==> (a + b)[|a| + i] == b[i];
  }

  lemma {:induction false} OkAdds(a: seq<CheckResult>, r: CheckResult)
    ensures AllOk(a + [r]) <==> AllOk(a) && r.ok
  {
    OkSplits(a, [r]);
    assert [r][0] == r;
  }

  predicate Sound(action: Action, kind: Option<Kind>) {
    kind.Some? && action.allChangesDeployed != Some(false) && (kind == Some(Link) ==> Equipped(action))
  }

  // A result for one bound Action says what is so, and its verdict is of what it says.
  ghost predicate TellsOf(r: CheckResult, action: Action, index: int, kind: Option<Kind>) {
    match r.line
    case Matches(i, k) => i == index && k == kind && (r.ok <==> kind.Some?)
    case Undeployed(i) => i == index && action.allChangesDeployed == Some(false) && !r.ok
    case Dependency(version) =>
      kind == Some(Link) && IsSdkVersion(action.dependencies, version) && (r.ok <==> version == Some("7.2.0"))
    case Secrets(missing) =>
      && kind == Some(Link) && (r.ok <==> missing == [])
      && forall n :: n in missing <==>
           n in {"AUTH0_DOMAIN", "LINKING_CLIENT_ID", "LINKING_CLIENT_SECRET"} && n !in action.secretNames
    case Present(_) => false
    case LinkBeforeClaim => false
  }

  // The results for one bound Action: always whether it is a known file, and for the
  // linking one its dependency and its secrets.
  method CheckAction(action: Action, index: nat, kind: Option<Kind>) returns (results: seq<CheckResult>)
    ensures AllOk(results) <==> Sound(action, kind)
    ensures forall r :: r in results ==> TellsOf(r, action, index, kind)
    ensures results != [] && results[0].line.Matches?
    ensures action.allChangesDeployed == Some(false) ==> |results| > 1 && results[1].line.Undeployed?
    ensures kind == Some(Link) ==>
      |results| > 2 && results[|results| - 2].line.Dependency? && results[|results| - 1].line.Secrets?
  {
    results := [];
    SdkVersionIsFirst(action.dependencies);
    var matched := CheckResult(kind.Some?, Matches(index, kind));
    OkAdds(results, matched);
    results := results + [matched];
    if action.allChangesDeployed == Some(false) {
      OkAdds(results, CheckResult(false, Undeployed(index)));
      results := results + [CheckResult(false, Undeployed(index))];
    }
    if kind == Some(Link) {
      var sdk := SdkVersion(action.dependencies);
      OkAdds(results, CheckResult(sdk == Some(AUTH0_SDK_VERSION), Dependency(sdk)));
      results := results + [CheckResult(sdk == Some(AUTH0_SDK_VERSION), Dependency(sdk))];
      var missing := Missing(LINKING_SECRETS, action.secretNames);
      OkAdds(results, CheckResult(missing == [], Secrets(missing)));
      results := results + [CheckResult(missing == [], Secrets(missing))];
      assert missing != [] ==> missing[0] in missing;
    }
  }

  lemma {:induction false} KindsGrow(kinds: seq<Option<Kind>>, bound: seq<Action>, i: nat, expected: Expected)
    requires i < |bound| && KindsAre(kinds, bound[..i], expected)
    ensures KindsAre(kinds + [KindOf(bound[i], expected)], bound[..i + 1], expected)
  {
  }

  lemma {:induction false} FirstGrows(kinds: seq<Option<Kind>>, kind: Kind, position: int, next: Option<Kind>)
    requires First(kinds, kind, position)
    ensures First(kinds + [next], kind, if position == -1 && next == Some(kind) then |kinds| else position)
  {
  }

  lemma {:induction false} SoundGrows(bound: seq<Action>, kinds: seq<Option<Kind>>, next: Option<Kind>)
    requires |kinds| < |bound|
    ensures (forall k :: 0 <= k <= |kinds| ==> Sound(bound[k], (kinds + [next])[k]))
       <==> ((forall k :: 0 <= k < |kinds| ==> Sound(bound[k], kinds[k])) && Sound(bound[|kinds|], next))
  {
    assert (kinds + [next])[|kinds|] == next;
    assert forall k :: 0 <= k < |kinds| ==> (kinds + [next])[k] == kinds[k];
  }

  ghost predicate AllTell(results: seq<CheckResult>, bound: seq<Action>, kinds: seq<Option<Kind>>)
    requires |kinds| <= |bound|
  {
    forall r :: r in results ==> exists i :: 0 <= i < |kinds| && TellsOf(r, bound[i], i, kinds[i])
  }

  lemma {:induction false} MoreTell(results: seq<CheckResult>, more: seq<CheckResult>, bound: seq<Action>,
        kinds: seq<Option<Kind>>, next: Option<Kind>)
    requires |kinds| < |bound| && AllTell(results, bound, kinds)
    requires forall r :: r in more ==> TellsOf(r, bound[|kinds|], |kinds|, next)
    ensures AllTell(results + more, bound, kinds + [next])
  {
    var longer := kinds + [next];
    forall r | r in results + more ensures exists i :: 0 <= i < |longer| && TellsOf(r, bound[i], i, longer[i]) {
      if r in results {
        var i :| 0 <= i < |kinds| && TellsOf(r, bound[i], i, kinds[i]);
        assert longer[i] == kinds[i];
      } else {
        assert longer[|kinds|] == next;
      }
    }
  }

  method CheckActions(bound: seq<Action>, expected: Expected)
    returns (results: seq<CheckResult>, link: int, claim: int, ghost kinds: seq<Option<Kind>>)
    ensures KindsAre(kinds, bound, expected)
    ensures AllOk(results) <==> forall k :: 0 <= k < |bound| ==> Sound(bound[k], kinds[k])
    ensures First(kinds, Link, link) && First(kinds, Claim, claim)
    ensures AllTell(results, bound, kinds)
  {
    results, link, claim, kinds := [], -1, -1, [];
    for i := 0 to |bound|
      invariant KindsAre(kinds, bound[..i], expected)
      invariant AllOk(results) <==> forall k :: 0 <= k < i ==> Sound(bound[k], kinds[k])
      invariant First(kinds, Link, link) && First(kinds, Claim, claim)
      invariant AllTell(results, bound, kinds)
    {
      var kind := KindOf(bound[i], expected);
      KindsGrow(kinds, bound, i, expected);
      FirstGrows(kinds, Link, link, kind);
      FirstGrows(kinds, Claim, claim, kind);
      SoundGrows(bound, kinds, kind);
      if kind == Some(Link) && link == -1 { link := i; }
      if kind == Some(Claim) && claim == -1 { claim := i; }
      var more := CheckAction(bound[i], i, kind);
      OkSplits(results, more);
      MoreTell(results, more, bound, kinds, kind);
      kinds := kinds + [kind];
      results := results + more;
    }
  }

  // The file an Action holds, by its content; the linking one when both are the same.
  ghost predicate IsKind(action: Action, linkFile: string, claimFile: string, kind: Option<Kind>) {
    && (kind == Some(Link) <==> Holds(action, linkFile))
    && (kind == Some(Claim) <==> !Holds(action, linkFile) && Holds(action, claimFile))
  }

  ghost predicate Runs(bound: seq<Action>, linkFile: string, claimFile: string, kind: Kind) {
    exists i :: 0 <= i < |bound| && IsKind(bound[i], linkFile, claimFile, Some(kind))
  }

  // The first linking Action comes before every Action that only claims.
  ghost predicate LinksFirst(bound: seq<Action>, linkFile: string, claimFile: string) {
    exists i :: 0 <= i < |bound| && Holds(bound[i], linkFile)
      && forall j :: 0 <= j < i ==> !IsKind(bound[j], linkFile, claimFile, Some(Claim))
  }

  // What a result of the whole flow says is so, and its verdict is of what it says.
  ghost predicate Tells(r: CheckResult, bound: seq<Action>, linkFile: string, claimFile: string) {
    match r.line
    case Present(kind) => r.ok <==> Runs(bound, linkFile, claimFile, kind)
    case LinkBeforeClaim =>
      && Runs(bound, linkFile, claimFile, Link) && Runs(bound, linkFile, claimFile, Claim)
      && (r.ok <==> LinksFirst(bound, linkFile, claimFile))
    case _ => exists i, kind ::
      0 <= i < |bound| && IsKind(bound[i], linkFile, claimFile, kind) && TellsOf(r, bound[i], i, kind)
  }

  ghost predicate FlowTells(results: seq<CheckResult>, bound: seq<Action>, linkFile: string, claimFile: string) {
    forall r :: r in results ==> Tells(r, bound, linkFile, claimFile)
  }

  lemma {:induction false} OneMoreTells(results: seq<CheckResult>, r: CheckResult, bound: seq<Action>,
        linkFile: string, claimFile: string)
    requires FlowTells(results, bound, linkFile, claimFile) && Tells(r, bound, linkFile, claimFile)
    ensures FlowTells(results + [r], bound, linkFile, claimFile)
    ensures AllOk(results + [r]) <==> AllOk(results) && r.ok
  {
    OkAdds(results, r);
  }

  lemma {:induction false} ActionsTell(results: seq<CheckResult>, bound: seq<Action>, kinds: seq<Option<Kind>>,
        linkFile: string, claimFile: string)
    requires KindsAre(kinds, bound, Expected(NormalizeCode(linkFile), NormalizeCode(claimFile)))
    requires AllTell(results, bound, kinds)
    ensures FlowTells(results, bound, linkFile, claimFile)
  {
    forall r | r in results ensures Tells(r, bound, linkFile, claimFile) {
      var i :| 0 <= i < |kinds| && TellsOf(r, bound[i], i, kinds[i]);
      KindIsContent(bound[i], linkFile, claimFile);
      assert IsKind(bound[i], linkFile, claimFile, kinds[i]);
    }
  }

  lemma {:induction false} FirstRuns(bound: seq<Action>, kinds: seq<Option<Kind>>, linkFile: string,
        claimFile: string, kind: Kind, position: int)
    requires KindsAre(kinds, bound, Expected(NormalizeCode(linkFile), NormalizeCode(claimFile)))
    requires First(kinds, kind, position)
    ensures position != -1 <==> Runs(bound, linkFile, claimFile, kind)
  {
    forall i | 0 <= i < |bound| ensures IsKind(bound[i], linkFile, claimFile, Some(kind)) <==> kinds[i] == Some(kind) {
      KindIsContent(bound[i], linkFile, claimFile);
    }
  }

  lemma {:induction false} FirstsAreOrdered(bound: seq<Action>, kinds: seq<Option<Kind>>, linkFile: string,
        claimFile: string, link: int, claim: int)
    requires KindsAre(kinds, bound, Expected(NormalizeCode(linkFile), NormalizeCode(claimFile)))
    requires First(kinds, Link, link) && First(kinds, Claim, claim) && link != -1 && claim != -1
    ensures link < claim <==> LinksFirst(bound, linkFile, claimFile)
  {
    forall i | 0 <= i < |bound|
      ensures Holds(bound[i], linkFile) <==> kinds[i] == Some(Link)
      ensures IsKind(bound[i], linkFile, claimFile, Some(Claim)) <==> kinds[i] == Some(Claim)
    {
      KindIsContent(bound[i], linkFile, claimFile);
    }
  }

  lemma {:induction false} PresenceTells(bound: seq<Action>, linkFile: string, claimFile: string, kind: Kind, ok: bool)
    requires ok <==> Runs(bound, linkFile, claimFile, kind)
    ensures Tells(CheckResult(ok, Present(kind)), bound, linkFile, claimFile)
  {
  }

  lemma {:induction false} OrderTells(bound: seq<Action>, linkFile: string, claimFile: string, ok: bool)
    requires Runs(bound, linkFile, claimFile, Link) && Runs(bound, linkFile, claimFile, Claim)
    requires ok <==> LinksFirst(bound, linkFile, claimFile)
    ensures Tells(CheckResult(ok, LinkBeforeClaim), bound, linkFile, claimFile)
  {
  }

  // Every result is good exactly when every Action bound is one of the two files,
  // deployed and equipped, and the linking Action runs before the claim Action; and
  // every one is true of what it speaks of.
  method CheckPostLoginFlow(bound: seq<Action>, linkFile: string, claimFile: string) returns (results: seq<CheckResult>)
    ensures AllOk(results) <==> GoodFlow(bound, linkFile, claimFile)
    ensures FlowTells(results, bound, linkFile, claimFile)
  {
    var link, claim;
    ghost var kinds;
    results, link, claim, kinds := CheckActions(bound, Expected(NormalizeCode(linkFile), NormalizeCode(claimFile)));
    FirstsDecide(bound, kinds, linkFile, claimFile, link, claim);
    FirstRuns(bound, kinds, linkFile, claimFile, Link, link);
    FirstRuns(bound, kinds, linkFile, claimFile, Claim, claim);
    ActionsTell(results, bound, kinds, linkFile, claimFile);
    PresenceTells(bound, linkFile, claimFile, Link, link != -1);
    PresenceTells(bound, linkFile, claimFile, Claim, claim != -1);
    OneMoreTells(results, CheckResult(link != -1, Present(Link)), bound, linkFile, claimFile);
    results := results + [CheckResult(link != -1, Present(Link))];
    OneMoreTells(results, CheckResult(claim != -1, Present(Claim)), bound, linkFile, claimFile);
    results := results + [CheckResult(claim != -1, Present(Claim))];
    if link != -1 && claim != -1 {
      FirstsAreOrdered(bound, kinds, linkFile, claimFile, link, claim);
      OrderTells(bound, linkFile, claimFile, link < claim);
      OneMoreTells(results, CheckResult(link < claim, LinkBeforeClaim), bound, linkFile, claimFile);
      results := results + [CheckResult(link < claim, LinkBeforeClaim)];
    }
  }

  lemma {:induction false} FirstsDecide(bound: seq<Action>, kinds: seq<Option<Kind>>, linkFile: string,
        claimFile: string, link: int, claim: int)
    requires KindsAre(kinds, bound, Expected(NormalizeCode(linkFile), NormalizeCode(claimFile)))
    requires First(kinds, Link, link) && First(kinds, Claim, claim)
    ensures GoodFlow(bound, linkFile, claimFile) <==>
      (forall i :: 0 <= i < |bound| ==> Sound(bound[i], kinds[i])) && link != -1 && claim != -1 && link < claim
  {
    forall i | 0 <= i < |bound|
      ensures Holds(bound[i], linkFile) <==> kinds[i] == Some(Link)
      ensures !Holds(bound[i], linkFile) && Holds(bound[i], claimFile) <==> kinds[i] == Some(Claim)
      ensures GoodAction(bound[i], linkFile, claimFile) <==> Sound(bound[i], kinds[i])
    {
      KindIsContent(bound[i], linkFile, claimFile);
    }
  }
}

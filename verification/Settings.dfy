// Environment settings (src/utils/envSettings.ts). Text is trimmed as JavaScript
// trims it, and its case changes for the letters A to Z.
module Settings {
  type Env = map<string, string>

  predicate Blank(c: char) {
    || c == ' ' || '\t' <= c <= '\r' || 0x2000 <= c as int <= 0x200A
    || c as int in {0xA0, 0x1680, 0x2028, 0x2029, 0x202F, 0x205F, 0x3000, 0xFEFF}
  }

  function TrimStart(s: string): string {
    if s != [] && Blank(s[0]) then TrimStart(s[1..]) else s
  }

  function TrimEnd(s: string): string {
    if s != [] && Blank(s[|s| - 1]) then TrimEnd(s[..|s| - 1]) else s
  }

  function Trim(s: string): string {
    TrimEnd(TrimStart(s))
  }

  function LowerChar(c: char): char {
    if 'A' <= c <= 'Z' then (c as int + 32) as char else c
  }

  function Lower(s: string): string {
    seq(|s|, i requires 0 <= i < |s| => LowerChar(s[i]))
  }

  function UpperChar(c: char): char {
    if 'a' <= c <= 'z' then (c as int - 32) as char else c
  }

  function Upper(s: string): string {
    seq(|s|, i requires 0 <= i < |s| => UpperChar(s[i]))
  }

  // The white space and line terminators of ECMAScript (sections 12.2 and 12.3), one by one.
  lemma {:induction false} BlanksAre(c: char)
    ensures Blank(c) <==> c as int in {
      0x9, 0xA, 0xB, 0xC, 0xD, 0x20, 0xA0, 0x1680, 0x2000, 0x2001, 0x2002, 0x2003, 0x2004, 0x2005, 0x2006, 0x2007,
      0x2008, 0x2009, 0x200A, 0x2028, 0x2029, 0x202F, 0x205F, 0x3000, 0xFEFF}
  {
  }

  // The letters pair off in the order of the alphabet, and nothing else changes.
  lemma {:induction false} CasesPair(i: nat, c: char)
    requires i < 26
    ensures LowerChar(('A' as int + i) as char) == ('a' as int + i) as char
    ensures UpperChar(('a' as int + i) as char) == ('A' as int + i) as char
    ensures !('A' <= c <= 'Z') ==> LowerChar(c) == c
    ensures !('a' <= c <= 'z') ==> UpperChar(c) == c
  {
  }

  lemma {:induction false} TrimStartHolds(s: string)
    ensures |TrimStart(s)| <= |s| && TrimStart(s) == s[|s| - |TrimStart(s)|..]
    ensures TrimStart(s) != "" ==> !Blank(TrimStart(s)[0])
    ensures s != "" && !Blank(s[0]) ==> TrimStart(s) == s
  {
    if s != "" && Blank(s[0]) { TrimStartHolds(s[1..]); }
  }

  lemma {:induction false} TrimEndHolds(s: string)
    ensures |TrimEnd(s)| <= |s| && TrimEnd(s) == s[..|TrimEnd(s)|]
    ensures TrimEnd(s) != "" ==> !Blank(TrimEnd(s)[|TrimEnd(s)| - 1])
    ensures s != "" && !Blank(s[|s| - 1]) ==> TrimEnd(s) == s
    ensures TrimEnd(TrimEnd(s)) == TrimEnd(s)
  {
    if s != "" && Blank(s[|s| - 1]) { TrimEndHolds(s[..|s| - 1]); }
  }

  function Get(env: Env, name: string): string {
    if name in env then env[name] else ""
  }

  // offUnlessExplicitlyEnabled
  predicate Enabled(env: Env, name: string) {
    Lower(Trim(Get(env, name))) in {"true", "1", "yes", "on", "enabled"}
  }
}

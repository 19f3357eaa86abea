/**
 * generateFilename: the download name of an exported proposal. The solution
 * name is made safe by replacing, code unit by code unit, everything but
 * ASCII letters and digits, hiragana, katakana and the CJK unified
 * ideographs with '_'. Strings here are sequences of Unicode scalar values,
 * while the JavaScript pattern works on UTF-16 code units, so a character
 * outside the Basic Multilingual Plane is replaced twice.
 */
module Filename {

  datatype ExportType = Pdf | Pptx

  function Extension(t: ExportType): string {
    match t
    case Pdf => "pdf"
    case Pptx => "pptx"
  }

  /** The characters the pattern leaves alone. */
  predicate Allowed(c: char) {
    ('a' <= c <= 'z') || ('A' <= c <= 'Z') || ('0' <= c <= '9')
    || (0x3040 <= c as int <= 0x309F)   // hiragana
    || (0x30A0 <= c as int <= 0x30FF)   // katakana
    || (0x4E00 <= c as int <= 0x9FFF)   // CJK unified ideographs
  }

  /** The number of UTF-16 code units that encode a character. */
  function CodeUnits(c: char): nat {
    if c as int < 0x1_0000 then 1 else 2
  }

  function Utf16Length(s: string): nat {
    if |s| == 0 then 0 else CodeUnits(s[0]) + Utf16Length(s[1..])
  }

  /** A character kept, or one '_' per code unit. */
  function SafeChar(c: char): string {
    if Allowed(c) then [c] else seq(CodeUnits(c), _ => '_')
  }

  /** The name after the replacement. */
  function SafeName(name: string): (r: string)
    ensures |r| == Utf16Length(name)
    ensures forall i :: 0 <= i < |r| ==> Allowed(r[i]) || r[i] == '_'
  {
    if |name| == 0 then "" else SafeChar(name[0]) + SafeName(name[1..])
  }

  /** `稟議書_{safe name}_{date}.{type}`, the date being the day part of the current ISO timestamp. */
  function GenerateFilename(solutionName: string, date: string, t: ExportType): (r: string)
    ensures |r| == 4 + Utf16Length(solutionName) + 1 + |date| + 1 + |Extension(t)|
    ensures r[..4] == "稟議書_"
    ensures r[|r| - |Extension(t)| - 1..] == "." + Extension(t)
  {
    "稟議書_" + SafeName(solutionName) + "_" + date + "." + Extension(t)
  }

  /** A name already made of allowed characters and '_' is left as it is, and only such a name is. */
  lemma {:induction false} SafeNameFixedPoints(name: string)
    ensures SafeName(name) == name <==> forall i :: 0 <= i < |name| ==> Allowed(name[i]) || name[i] == '_'
  {
    if forall i :: 0 <= i < |name| ==> Allowed(name[i]) || name[i] == '_' {
      KeepsSafeNames(name);
    }
  }

  lemma {:induction false} KeepsSafeNames(name: string)
    requires forall i :: 0 <= i < |name| ==> Allowed(name[i]) || name[i] == '_'
    ensures SafeName(name) == name
    decreases |name|
  {
    if |name| > 0 {
      assert forall i :: 0 <= i < |name[1..]| ==> name[1..][i] == name[i + 1];
      KeepsSafeNames(name[1..]);
      if !Allowed(name[0]) {
        assert SafeChar(name[0]) == "_";
      }
      assert name == [name[0]] + name[1..];
    }
  }

  /** Making a name safe twice changes nothing more. */
  lemma SafeNameIdempotent(name: string)
    ensures SafeName(SafeName(name)) == SafeName(name)
  {
    KeepsSafeNames(SafeName(name));
  }

  /** The replacement never removes or adds a character: every allowed character keeps its place. */
  lemma {:induction false} SafeNameKeepsAllowed(name: string)
    requires forall i :: 0 <= i < |name| ==> name[i] as int < 0x1_0000
    ensures |SafeName(name)| == |name|
    ensures forall i :: 0 <= i < |name| ==> SafeName(name)[i] == (if Allowed(name[i]) then name[i] else '_')
    decreases |name|
  {
    if |name| > 0 {
      assert forall i :: 0 <= i < |name[1..]| ==> name[1..][i] == name[i + 1];
      SafeNameKeepsAllowed(name[1..]);
      var r := SafeName(name);
      assert r == SafeChar(name[0]) + SafeName(name[1..]);
      assert |SafeChar(name[0])| == 1;
      forall i | 1 <= i < |name|
        ensures r[i] == (if Allowed(name[i]) then name[i] else '_')
      {
        assert r[i] == SafeName(name[1..])[i - 1];
      }
    }
  }

  /** A character outside the Basic Multilingual Plane becomes two underscores. */
  lemma AstralCharacter()
    ensures SafeName("a\U{1F600}b") == "a__b"
  {
    assert !Allowed('\U{1F600}');
    assert SafeChar('\U{1F600}') == "__";
    assert "a\U{1F600}b"[1..][1..][1..] == "";
  }

  /** With a date free of separators, the file name holds no path or drive separator. */
  lemma NoPathSeparators(solutionName: string, date: string, t: ExportType)
    requires '/' !in date && '\\' !in date && ':' !in date
    ensures var f := GenerateFilename(solutionName, date, t);
      '/' !in f && '\\' !in f && ':' !in f
  {
    var safe := SafeName(solutionName);
    forall i | 0 <= i < |safe| ensures safe[i] != '/' && safe[i] != '\\' && safe[i] != ':' {
      assert Allowed(safe[i]) || safe[i] == '_';
    }
    assert SeparatorFree(safe);
    assert SeparatorFree("稟議書_") && SeparatorFree("_") && SeparatorFree(".");
    assert SeparatorFree(Extension(t));
    SeparatorFreeJoin("稟議書_", safe);
    SeparatorFreeJoin("稟議書_" + safe, "_");
    SeparatorFreeJoin("稟議書_" + safe + "_", date);
    SeparatorFreeJoin("稟議書_" + safe + "_" + date, ".");
    SeparatorFreeJoin("稟議書_" + safe + "_" + date + ".", Extension(t));
  }

  predicate SeparatorFree(s: string) {
    '/' !in s && '\\' !in s && ':' !in s
  }

  lemma SeparatorFreeJoin(a: string, b: string)
    requires SeparatorFree(a) && SeparatorFree(b)
    ensures SeparatorFree(a + b)
  {
  }
}

/** The upload name check: only files whose extension, compared without
    regard to case, is "zip" are accepted (app.py, `allowed_file`). */
module Upload {
  import opened Wrappers

  /** ASCII lower-casing of one character. */
  function LowerChar(c: char): char
  {
    if 'A' <= c <= 'Z' then (c as int + 32) as char else c
  }

  function Lower(s: string): (r: string)
    ensures |r| == |s|
    ensures forall i :: 0 <= i < |s| ==> r[i] == LowerChar(s[i])
  {
    seq(|s|, i requires 0 <= i < |s| => LowerChar(s[i]))
  }

  /** Index of the last '.' in `s`, if any. */
  function LastDot(s: string): (r: Option<nat>)
    ensures r.None? <==> '.' !in s
    ensures r.Some? ==> r.value < |s| && s[r.value] == '.' && '.' !in s[r.value + 1..]
  {
    if |s| == 0 then None
    else if s[|s| - 1] == '.' then Some(|s| - 1)
    else
      var r := LastDot(s[..|s| - 1]);
      assert s == s[..|s| - 1] + [s[|s| - 1]];
      if r.Some? then
        assert s[r.value + 1..] == s[..|s| - 1][r.value + 1..] + [s[|s| - 1]];
        r
      else r
  }

  /** True when `name` contains a '.' and the text after the last '.',
      lower-cased, is "zip". */
  function AllowedFile(name: string): bool
  {
    match LastDot(name)
    case None => false
    case Some(i) => Lower(name[i + 1..]) == "zip"
  }

  /** An independent characterisation: the name ends in '.' followed by
      three characters that lower-case to "zip". */
  lemma AllowedFileIff(name: string)
    ensures AllowedFile(name) <==>
      |name| >= 4 && name[|name| - 4] == '.' && Lower(name[|name| - 3..]) == "zip"
  {
    var n := |name|;
    if AllowedFile(name) {
      var i := LastDot(name).value;
      assert |name[i + 1..]| == 3;
      assert i == n - 4;
    }
    if n >= 4 && name[n - 4] == '.' && Lower(name[n - 3..]) == "zip" {
      var t := name[n - 3..];
      forall k | 0 <= k < 3 ensures t[k] != '.' {
        assert LowerChar(t[k]) == "zip"[k];
      }
      assert '.' !in t;
      assert LastDot(name) == Some(n - 4);
    }
  }

  /** The extension check ignores case and needs a '.' before it. */
  lemma AllowedFileExamples()
    ensures AllowedFile("scan.ZIP")
    ensures AllowedFile(".zip")
    ensures !AllowedFile("zip")
    ensures !AllowedFile("a.zip.txt")
  {
    UpperCaseAccepted();
    BareExtensionAccepted();
    NoDotRejected();
    InnerZipRejected();
  }

  lemma UpperCaseAccepted()
    ensures AllowedFile("scan.ZIP")
  {
    AllowedFileIff("scan.ZIP");
    assert "scan.ZIP"[5..] == "ZIP";
    assert Lower("ZIP") == "zip";
  }

  lemma BareExtensionAccepted()
    ensures AllowedFile(".zip")
  {
    AllowedFileIff(".zip");
    assert ".zip"[1..] == "zip";
    assert Lower("zip") == "zip";
  }

  lemma NoDotRejected()
    ensures !AllowedFile("zip")
  {
    AllowedFileIff("zip");
  }

  lemma InnerZipRejected()
    ensures !AllowedFile("a.zip.txt")
  {
    AllowedFileIff("a.zip.txt");
    assert "a.zip.txt"[6..] == "txt";
    assert Lower("txt")[0] == 't';
  }
}

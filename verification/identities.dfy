/** Reading the identity list (grass.py:91-97) and the start-up decision in
    `main` (grass.py:107-115), over the lines of the file rather than the
    file itself. */
module Identities {
  import opened Wire

  /** Python's `str.isspace` for one code point: the characters `str.strip()`
      removes when called without arguments. */
  predicate IsSpace(c: char)
  {
    ('\t' <= c <= '\r') || ('\U{1C}' <= c <= '\U{1F}') || c == ' ' || c == '\U{85}' || c == '\U{A0}'
    || c == '\U{1680}' || ('\U{2000}' <= c <= '\U{200A}') || c == '\U{2028}' || c == '\U{2029}'
    || c == '\U{202F}' || c == '\U{205F}' || c == '\U{3000}'
  }

  predicate AllSpace(s: string)
  {
    forall k :: 0 <= k < |s| ==> IsSpace(s[k])
  }

  /** How many whitespace characters `s` starts with. */
  function LeadingSpaces(s: string): (n: nat)
    ensures n <= |s| && AllSpace(s[..n])
    ensures n == |s| || !IsSpace(s[n])
  {
    if s != [] && IsSpace(s[0]) then
      var n := LeadingSpaces(s[1..]);
      assert s[..n + 1] == [s[0]] + s[1..][..n];
      n + 1
    else 0
  }

  /** Where the whitespace at the end of `s` begins. */
  function TrailingStart(s: string): (n: nat)
    ensures n <= |s| && AllSpace(s[n..])
    ensures n == 0 || !IsSpace(s[n - 1])
  {
    if s != [] && IsSpace(s[|s| - 1]) then
      var n := TrailingStart(s[..|s| - 1]);
      assert s[n..] == s[..|s| - 1][n..] + [s[|s| - 1]];
      n
    else |s|
  }

  /** `s.lstrip()`. */
  function TrimStart(s: string): string
  {
    s[LeadingSpaces(s)..]
  }

  /** `s.rstrip()`. */
  function TrimEnd(s: string): string
  {
    s[..TrailingStart(s)]
  }

  /** `s.strip()`: `s` with the whitespace at both ends removed. */
  function Strip(s: string): (r: string)
    ensures |r| <= |s|
    ensures r != [] ==> !IsSpace(r[0]) && !IsSpace(r[|r| - 1])
  {
    TrimEnd(TrimStart(s))
  }

  /** The stripped line is a slice of `s` with only whitespace around it; it
      starts and ends with a non-whitespace character; and it is empty
      exactly when `s` is all whitespace. */
  lemma StripSlice(s: string)
    ensures var r := Strip(s);
      && (exists i :: 0 <= i <= |s| - |r| && r == s[i..i + |r|] && AllSpace(s[..i]) && AllSpace(s[i + |r|..]))
      && (r != [] ==> !IsSpace(r[0]) && !IsSpace(r[|r| - 1]))
      && (r == [] <==> AllSpace(s))
  {
  }

  /** Stripping twice is stripping once. */
  lemma StripIdempotent(s: string)
    ensures Strip(Strip(s)) == Strip(s)
  {
  }

  /** A non-empty string with no whitespace at either end: what `strip()`
      leaves of a non-blank line. */
  predicate IsStripped(id: string)
  {
    id != [] && !IsSpace(id[0]) && !IsSpace(id[|id| - 1])
  }

  /** `strip()` leaves such a string unchanged. */
  lemma StrippedIsFixed(id: string)
    requires IsStripped(id)
    ensures Strip(id) == id
  {
    assert LeadingSpaces(id) == 0;
    assert TrailingStart(id) == |id|;
  }

  /** `[line.strip() for line in lines if line.strip()]`. */
  function Identities(lines: seq<string>): (ids: seq<string>)
    ensures |ids| <= |lines|
    ensures forall k :: 0 <= k < |ids| ==> IsStripped(ids[k])
  {
    if lines == [] then []
    else
      var s := Strip(lines[0]);
      (if s != [] then [s] else []) + Identities(lines[1..])
  }

  /** The filter works line by line: splitting the lines splits the result. */
  lemma {:induction false} IdentitiesAppend(a: seq<string>, b: seq<string>)
    ensures Identities(a + b) == Identities(a) + Identities(b)
  {
    if a == [] {
      assert a + b == b;
    } else {
      var head := if Strip(a[0]) != [] then [Strip(a[0])] else [];
      assert (a + b)[0] == a[0];
      assert (a + b)[1..] == a[1..] + b;
      IdentitiesAppend(a[1..], b);
      calc {
        Identities(a + b);
        head + Identities(a[1..] + b);
        head + (Identities(a[1..]) + Identities(b));
        (head + Identities(a[1..])) + Identities(b);
      }
    }
  }

  /** A single line contributes its stripped form, or nothing when blank. */
  lemma IdentitiesOfLine(line: string)
    ensures Identities([line]) == if AllSpace(line) then [] else [Strip(line)]
  {
  }

  /** An identity is listed exactly when some line strips to it and it is not
      empty. */
  lemma {:induction false} IdentitiesMembers(lines: seq<string>, id: string)
    ensures id in Identities(lines) <==> id != [] && exists line :: line in lines && Strip(line) == id
  {
    if lines != [] {
      IdentitiesMembers(lines[1..], id);
      assert lines == [lines[0]] + lines[1..];
      if id != [] && Strip(lines[0]) != id && (exists line :: line in lines && Strip(line) == id) {
        var line :| line in lines && Strip(line) == id;
        assert line in lines[1..];
      }
    }
  }

  /** The list is empty exactly when every line is blank. */
  lemma {:induction false} IdentitiesEmpty(lines: seq<string>)
    ensures Identities(lines) == [] <==> forall line :: line in lines ==> AllSpace(line)
  {
    if lines != [] {
      IdentitiesEmpty(lines[1..]);
      StripSlice(lines[0]);
      assert lines == [lines[0]] + lines[1..];
    }
  }

  /** `load_lines`: the identities read from the file, or none when the file
      cannot be read (`None` stands for the exception caught at grass.py:95). */
  function LoadLines(file: Option<seq<string>>): (ids: seq<string>)
    ensures file.None? ==> ids == []
    ensures file.Some? ==> ids == Identities(file.value)
    ensures forall k :: 0 <= k < |ids| ==> IsStripped(ids[k])
  {
    match file
    case None => []
    case Some(lines) => Identities(lines)
  }

  /** What `main` does with the loaded list: report that no account is
      available, or start one `direct_connect` per identity, in list order. */
  datatype Launch = NoAccounts | ConnectEach(ids: seq<string>)

  /** The loaded list is empty exactly when the file is unreadable or holds
      only blank lines. */
  lemma LoadLinesEmpty(file: Option<seq<string>>)
    ensures LoadLines(file) == [] <==> file.None? || forall line :: line in file.value ==> AllSpace(line)
  {
    if file.Some? {
      IdentitiesEmpty(file.value);
    }
  }

  /** The start-up decision on the loaded list: nothing is started when it is
      empty (the file is unreadable or holds only blank lines); otherwise one
      connection per non-blank line. */
  function Plan(file: Option<seq<string>>): (r: Launch)
    ensures r.NoAccounts? <==> file.None? || forall line :: line in file.value ==> AllSpace(line)
    ensures r.ConnectEach? ==> r.ids != [] && r.ids == Identities(file.value)
  {
    LoadLinesEmpty(file);
    var ids := LoadLines(file);
    if ids == [] then NoAccounts else ConnectEach(ids)
  }
}

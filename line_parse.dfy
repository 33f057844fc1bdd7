/** The text handling of the bulk inventory import: Python's `str.strip()`,
    `str.split('\n')` and `str.split(':', 1)` on the pasted
    `username:password` lines, and the classification of one line. */
module LineParse {

  /** The characters Python's `str.isspace()` accepts (and so the ones
      `str.strip()` with no argument removes). */
  predicate IsSpace(c: char) {
    c == ' ' || ('\t' <= c <= '\r') || ('\U{1C}' <= c <= '\U{1F}') ||
    c == '\U{85}' || c == '\U{A0}' || c == '\U{1680}' ||
    ('\U{2000}' <= c <= '\U{200A}') || c == '\U{2028}' || c == '\U{2029}' ||
    c == '\U{202F}' || c == '\U{205F}' || c == '\U{3000}'
  }

  predicate AllSpace(s: string) {
    forall i :: 0 <= i < |s| ==> IsSpace(s[i])
  }

  /** No whitespace at either end. */
  predicate Trimmed(s: string) {
    s == [] || (!IsSpace(s[0]) && !IsSpace(s[|s| - 1]))
  }

  /** `r` is `s` with the whitespace runs `s[..i]` and `s[j..]` cut off. */
  predicate CutAt(s: string, r: string, i: nat, j: nat) {
    i <= j <= |s| && r == s[i..j] && AllSpace(s[..i]) && AllSpace(s[j..])
  }

  /** The end of the run of whitespace that starts at `i`. */
  function LeadEnd(s: string, i: nat): (k: nat)
    requires i <= |s|
    ensures i <= k <= |s|
    ensures forall m :: i <= m < k ==> IsSpace(s[m])
    ensures k == |s| || !IsSpace(s[k])
    decreases |s| - i
  {
    if i < |s| && IsSpace(s[i]) then LeadEnd(s, i + 1) else i
  }

  /** The start of the run of whitespace that ends at `j`, not going below `lo`. */
  function TrailStart(s: string, lo: nat, j: nat): (k: nat)
    requires lo <= j <= |s|
    ensures lo <= k <= j
    ensures forall m :: k <= m < j ==> IsSpace(s[m])
    ensures k == lo || !IsSpace(s[k - 1])
    decreases j
  {
    if j > lo && IsSpace(s[j - 1]) then TrailStart(s, lo, j - 1) else j
  }

  /** Python's `s.strip()`: `s` without the whitespace at either end. */
  function Strip(s: string): (r: string)
    ensures Trimmed(r) && |r| <= |s|
  {
    var i := LeadEnd(s, 0);
    s[i..TrailStart(s, i, |s|)]
  }

  /** What `Strip` cuts off is whitespace, from both ends only: the result
      is the infix of `s` between a leading and a trailing run of spaces. */
  lemma StripCuts(s: string)
    ensures exists i: nat, j: nat :: CutAt(s, Strip(s), i, j)
  {
    var i := LeadEnd(s, 0);
    var j := TrailStart(s, i, |s|);
    assert AllSpace(s[..i]) by {
      forall m | 0 <= m < i ensures IsSpace(s[..i][m]) {
        assert s[..i][m] == s[m];
      }
    }
    assert AllSpace(s[j..]) by {
      forall m | 0 <= m < |s| - j ensures IsSpace(s[j..][m]) {
        assert s[j..][m] == s[j + m];
      }
    }
    assert CutAt(s, Strip(s), i, j);
  }

  /** Stripping text that is already trimmed changes nothing. */
  lemma StripTrimmed(s: string)
    requires Trimmed(s)
    ensures Strip(s) == s
  {
    if s != [] {
      assert LeadEnd(s, 0) == 0;
      assert TrailStart(s, 0, |s|) == |s|;
    }
  }

  /** The first position of `c` in `s`. */
  function IndexOf(s: string, c: char): (k: nat)
    requires c in s
    ensures k < |s| && s[k] == c && c !in s[..k]
  {
    if s[0] == c then 0 else
      assert c in s[1..] by { assert s == [s[0]] + s[1..]; }
      var k := 1 + IndexOf(s[1..], c);
      assert s[..k] == [s[0]] + s[1..][..k - 1];
      k
  }

  /** The inverse of splitting: the pieces glued back with `sep` between them. */
  function Join(parts: seq<string>, sep: char): string
    requires |parts| >= 1
  {
    if |parts| == 1 then parts[0] else parts[0] + [sep] + Join(parts[1..], sep)
  }

  /** Python's `s.split(sep)` for a one-character separator: the maximal
      pieces of `s` between occurrences of `sep`, empty pieces included,
      so `Join` puts `s` back together exactly. */
  function Split(s: string, sep: char): (parts: seq<string>)
    ensures |parts| >= 1
    ensures forall k :: 0 <= k < |parts| ==> sep !in parts[k]
    ensures Join(parts, sep) == s
    decreases |s|
  {
    if sep !in s then [s]
    else
      var k := IndexOf(s, sep);
      var rest := Split(s[k + 1..], sep);
      assert s == s[..k] + [sep] + s[k + 1..];
      [s[..k]] + rest
  }

  /** How the import treats one pasted line. */
  datatype Parsed =
    | Blank                                        // skipped
    | NoSeparator(line: string)                    // no ':' in the stripped line
    | BadFormat(line: string)                      // a side of the first ':' is empty
    | Entry(username: string, password: string)    // a candidate inventory row

  /** A non-blank stripped line split at its first ':' (position `k`), both
      sides stripped: an entry when neither side is empty. */
  function SplitEntry(line: string, k: nat): (p: Parsed)
    requires k < |line|
    ensures p.Entry? || p == BadFormat(line)
    ensures p.Entry? <==> Strip(line[..k]) != [] && Strip(line[k + 1..]) != []
    ensures p.Entry? ==> p.username == Strip(line[..k]) && p.password == Strip(line[k + 1..])
    ensures p.Entry? ==> p.username != [] && p.password != [] && Trimmed(p.username) && Trimmed(p.password)
    ensures p.Entry? && ':' !in line[..k] ==> ':' !in p.username
  {
    var username := Strip(line[..k]);
    var password := Strip(line[k + 1..]);
    assert ':' !in line[..k] ==> ':' !in username by {
      StripCuts(line[..k]);
      var i: nat, j: nat :| CutAt(line[..k], username, i, j);
      assert username == line[..k][i..j];
    }
    if username != [] && password != [] then Entry(username, password)
    else BadFormat(line)
  }

  /** One line of the bulk import: strip it; skip it when empty; otherwise
      split it at the first ':' and strip both sides. */
  function ParseLine(raw: string): (p: Parsed)
    ensures p == Blank <==> Strip(raw) == []
    ensures p.NoSeparator? <==> Strip(raw) != [] && ':' !in Strip(raw)
    ensures p.NoSeparator? ==> p.line == Strip(raw)
    ensures p.BadFormat? ==> p.line == Strip(raw) && ':' in p.line
    ensures var line := Strip(raw);
            ':' in line ==>
              var k := IndexOf(line, ':');
              && (p.Entry? <==> Strip(line[..k]) != [] && Strip(line[k + 1..]) != [])
              && (p.Entry? ==> p.username == Strip(line[..k]) && p.password == Strip(line[k + 1..]))
              && (!p.Entry? ==> p == BadFormat(line))
    ensures p.Entry? ==> p.username != [] && p.password != [] && ':' !in p.username
    ensures p.Entry? ==> Trimmed(p.username) && Trimmed(p.password)
  {
    var line := Strip(raw);
    if line == [] then Blank
    else if ':' !in line then NoSeparator(line)
    else SplitEntry(line, IndexOf(line, ':'))
  }

  /** Round trip: a well-formed `username:password` line parses back to the
      pair it was written from (the password may itself contain ':'). */
  lemma ParseLineRoundTrip(username: string, password: string)
    requires username != [] && password != []
    requires Trimmed(username) && Trimmed(password) && ':' !in username
    ensures ParseLine(username + ":" + password) == Entry(username, password)
  {
    var line := username + ":" + password;
    var k := |username|;
    assert line[..k] == username;
    assert line[k + 1..] == password;
    assert line[k] == ':';
    assert Trimmed(line) by {
      assert line[0] == username[0];
      assert line[|line| - 1] == password[|password| - 1];
    }
    StripTrimmed(line);
    StripTrimmed(username);
    StripTrimmed(password);
    IndexOfFirst(line, ':', k);
    assert Strip(line[..k]) == username && Strip(line[k + 1..]) == password;
    assert SplitEntry(line, k) == Entry(username, password);
    assert ParseLine(line) == SplitEntry(line, k);
  }

  /** The first occurrence is the one with no earlier occurrence. */
  lemma IndexOfFirst(s: string, c: char, k: nat)
    requires k < |s| && s[k] == c && c !in s[..k]
    ensures IndexOf(s, c) == k
  {
  }
}

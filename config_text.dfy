/**
 * Text handling of the configuration reader: comment stripping and trimming of one
 * input line, ASCII case mapping, and the split of a `field=value` line at its first '='.
 */
module ConfigText {
  import opened Wrappers

  /** The characters of `" \t\n"`, the white space of readFile and parseLine. */
  predicate IsBlank(c: char) {
    c == ' ' || c == '\t' || c == '\n'
  }

  predicate AllBlank(s: string) {
    forall i :: 0 <= i < |s| ==> IsBlank(s[i])
  }

  /** `s.find(c)`: the index of the first `c` in `s`, with `|s|` standing for `npos`. */
  function FindFirst(s: string, c: char): (r: nat)
    ensures r <= |s|
    ensures forall i :: 0 <= i < r ==> s[i] != c
    ensures r < |s| ==> s[r] == c
  {
    if s == [] then 0
    else if s[0] == c then 0
    else 1 + FindFirst(s[1..], c)
  }

  /** `s.find_first_not_of(" \t\n")`, with `|s|` standing for `npos`. */
  function FirstNonBlank(s: string): (r: nat)
    ensures r <= |s|
    ensures forall i :: 0 <= i < r ==> IsBlank(s[i])
    ensures r < |s| ==> !IsBlank(s[r])
  {
    if s == [] then 0
    else if !IsBlank(s[0]) then 0
    else 1 + FirstNonBlank(s[1..])
  }

  /**
   * `s.find_last_not_of(" \t\n") + 1`: the length of `s` without its trailing white space.
   * When `s` is all white space, `npos + 1` wraps around to 0, which is what this returns.
   */
  function TextEnd(s: string): (r: nat)
    ensures r <= |s|
    ensures forall i :: r <= i < |s| ==> IsBlank(s[i])
    ensures r > 0 ==> !IsBlank(s[r - 1])
  {
    if s == [] then 0
    else if !IsBlank(s[|s| - 1]) then |s|
    else TextEnd(s[..|s| - 1])
  }

  /** The part of a line before its first '#'. */
  function StripComment(line: string): string {
    line[..FindFirst(line, '#')]
  }

  /**
   * The text readFile keeps of one input line, or None when it skips the line:
   * a line starting with '#' is skipped, the rest of a line from its first '#' on is
   * dropped, a line of white space only is skipped, and what remains is trimmed
   * at the end and then at the start.
   */
  function Normalize(line: string): Option<string> {
    var commentStart := FindFirst(line, '#');
    if commentStart == 0 then None
    else
      var noComment := line[..commentStart];
      if FirstNonBlank(noComment) == |noComment| then None
      else
        var trailingStripped := noComment[..TextEnd(noComment)];
        Some(trailingStripped[FirstNonBlank(trailingStripped)..])
  }

  /** A line is skipped exactly when the text before its first '#' is white space only. */
  lemma NormalizeSkipsBlank(line: string)
    ensures Normalize(line).None? <==> AllBlank(StripComment(line))
  {
  }

  /**
   * What readFile keeps of a line is non-empty, holds no '#', begins and ends with a
   * character that is not white space, and is the text before the first '#' with
   * white space only cut off at both ends.
   */
  lemma NormalizeTrims(line: string)
    requires Normalize(line).Some?
    ensures var t := Normalize(line).value;
            var p := StripComment(line);
            && |t| > 0
            && '#' !in t
            && !IsBlank(t[0]) && !IsBlank(t[|t| - 1])
            && exists a :: 0 <= a && a + |t| <= |p| && p[a..a + |t|] == t
                           && AllBlank(p[..a]) && AllBlank(p[a + |t|..])
  {
    var p := StripComment(line);
    var e := TextEnd(p);
    var q := p[..e];
    var a := FirstNonBlank(q);
    var t := q[a..];
    assert Normalize(line) == Some(t);
    var f := FirstNonBlank(p);
    // the first non-blank character of p survives the trailing cut
    assert f < e;
    assert !IsBlank(q[f]);
    assert a <= f;
    assert t == p[a..e];
    assert AllBlank(p[..a]);
    assert AllBlank(p[e..]);
    assert forall i :: 0 <= i < |t| ==> t[i] == line[a + i];
    assert forall i :: 0 <= i < |t| ==> t[i] != '#';
  }

  function UpperChar(c: char): char {
    if 'a' <= c <= 'z' then (c as int - 32) as char else c
  }

  function LowerChar(c: char): char {
    if 'A' <= c <= 'Z' then (c as int + 32) as char else c
  }

  /** `transform(..., ::toupper)` in the C locale. */
  function Upper(s: string): string {
    seq(|s|, i requires 0 <= i < |s| => UpperChar(s[i]))
  }

  /** `transform(..., ::tolower)` in the C locale. */
  function Lower(s: string): string {
    seq(|s|, i requires 0 <= i < |s| => LowerChar(s[i]))
  }

  /**
   * Two characters that are equal, or are the lower-case and the upper-case form of the
   * same ASCII letter, which lie 32 code points apart.
   */
  predicate SameIgnoringCase(x: char, y: char) {
    || x == y
    || ('a' <= x <= 'z' && y as int == x as int - 32)
    || ('A' <= x <= 'Z' && y as int == x as int + 32)
  }

  /** Two strings that differ only in the case of ASCII letters. */
  predicate EqualIgnoringCase(a: string, b: string) {
    |a| == |b| && forall i :: 0 <= i < |a| ==> SameIgnoringCase(a[i], b[i])
  }

  /** Two characters upper-case alike exactly when they are the same letter up to case. */
  lemma UpperCharMatches(x: char, y: char)
    ensures UpperChar(x) == UpperChar(y) <==> SameIgnoringCase(x, y)
  {
  }

  /** Upper-casing identifies exactly the strings that are equal up to letter case. */
  lemma UpperMatchesIgnoringCase(a: string, b: string)
    ensures Upper(a) == Upper(b) <==> EqualIgnoringCase(a, b)
  {
    forall i | 0 <= i < |a| && i < |b|
      ensures UpperChar(a[i]) == UpperChar(b[i]) <==> SameIgnoringCase(a[i], b[i])
    {
      UpperCharMatches(a[i], b[i]);
    }
    if EqualIgnoringCase(a, b) {
      assert forall i :: 0 <= i < |a| ==> Upper(a)[i] == Upper(b)[i];
    }
    if Upper(a) == Upper(b) {
      assert forall i :: 0 <= i < |a| ==> Upper(a)[i] == UpperChar(a[i]);
    }
  }

  /** Case mapping leaves '=' where it is. */
  lemma LowerKeepsSeparators(s: string)
    ensures '=' in Lower(s) <==> '=' in s
    ensures FindFirst(Lower(s), '=') == FindFirst(s, '=')
  {
    var k := FindFirst(s, '=');
    var l := Lower(s);
    var m := FindFirst(l, '=');
    assert forall i :: 0 <= i < |s| ==> (l[i] == '=' <==> s[i] == '=');
    assert m < |s| ==> s[m] == '=';
    assert k < |s| ==> l[k] == '=';
  }

  /**
   * parseLine's split at the first '=': `field` is the text before it, `value` the text
   * after it. Without any '=', `find` gives npos, `npos + 1` wraps to 0, and `value`
   * is the whole line.
   */
  function SplitAtEquals(line: string): (string, string) {
    var k := FindFirst(line, '=');
    if k < |line| then (line[..k], line[k + 1..]) else (line, line)
  }

  /** Splitting and joining with '=' again gives back the line; the field holds no '='. */
  lemma SplitRoundTrip(line: string)
    requires '=' in line
    ensures var (field, value) := SplitAtEquals(line);
            field + "=" + value == line && '=' !in field
  {
    var k := FindFirst(line, '=');
    assert k < |line|;
    assert line[..k] + "=" + line[k + 1..] == line;
    assert forall i :: 0 <= i < k ==> line[..k][i] != '=';
  }

  /** Joining a field without '=' to any value and splitting again gives back both parts. */
  lemma JoinThenSplit(field: string, value: string)
    requires '=' !in field
    ensures SplitAtEquals(field + "=" + value) == (field, value)
  {
    var line := field + "=" + value;
    assert line == field + ("=" + value);
    FindAfterPrefix(field, "=" + value, '=');
    assert line[..|field|] == field;
    assert line[|field| + 1..] == value;
  }

  lemma {:induction false} FindAfterPrefix(prefix: string, rest: string, c: char)
    requires c !in prefix
    requires rest != [] && rest[0] == c
    ensures FindFirst(prefix + rest, c) == |prefix|
  {
    if prefix != [] {
      assert (prefix + rest)[1..] == prefix[1..] + rest;
      FindAfterPrefix(prefix[1..], rest, c);
    } else {
      assert prefix + rest == rest;
    }
  }
}

/** String helpers standing in for the parts of Go's `strings` package the
    toolkit relies on. Strings are `seq<char>`; case mapping and white space
    are the ASCII ones. */
module Text {

  /** Number of `?` placeholders in a fragment template. */
  function Placeholders(s: string): nat
  {
    multiset(s)['?']
  }

  lemma NoPlaceholders(s: string)
    requires '?' !in s
    ensures Placeholders(s) == 0
  {
  }

  lemma PlaceholdersAppend(a: string, b: string)
    ensures Placeholders(a + b) == Placeholders(a) + Placeholders(b)
  {
    assert multiset(a + b) == multiset(a) + multiset(b);
  }

  /** strings.Join */
  function Join(parts: seq<string>, sep: string): string
  {
    if |parts| == 0 then ""
    else if |parts| == 1 then parts[0]
    else Join(parts[..|parts| - 1], sep) + sep + parts[|parts| - 1]
  }

  /** Total number of placeholders across `parts`. */
  function PlaceholdersAll(parts: seq<string>): nat
  {
    if |parts| == 0 then 0
    else PlaceholdersAll(parts[..|parts| - 1]) + Placeholders(parts[|parts| - 1])
  }

  /** Joining with a placeholder-free separator adds no placeholders. */
  lemma {:induction false} PlaceholdersJoin(parts: seq<string>, sep: string)
    requires '?' !in sep
    ensures Placeholders(Join(parts, sep)) == PlaceholdersAll(parts)
  {
    if |parts| == 1 {
      assert PlaceholdersAll(parts[..0]) == 0;
    } else if |parts| > 1 {
      var init := parts[..|parts| - 1];
      PlaceholdersJoin(init, sep);
      PlaceholdersAppend(Join(init, sep), sep);
      PlaceholdersAppend(Join(init, sep) + sep, parts[|parts| - 1]);
    }
  }

  /** Decimal rendering of a natural number. */
  function Digits(n: nat): string
  {
    var d := ['0' + (n % 10) as char];
    if n < 10 then d else Digits(n / 10) + d
  }

  /** Decimal rendering of an integer, as fmt prints it. */
  function DecimalText(i: int): string
  {
    if i < 0 then "-" + Digits(-i) else Digits(i)
  }

  /** strings.Repeat for a non-negative count. */
  function Repeat(s: string, n: nat): string
  {
    if n == 0 then "" else s + Repeat(s, n - 1)
  }

  lemma {:induction false} PlaceholdersRepeat(s: string, n: nat)
    requires Placeholders(s) == 1
    ensures Placeholders(Repeat(s, n)) == n
  {
    if n > 0 {
      PlaceholdersRepeat(s, n - 1);
      PlaceholdersAppend(s, Repeat(s, n - 1));
    }
  }

  /** strings.HasPrefix */
  predicate HasPrefix(s: string, p: string)
  {
    |p| <= |s| && s[..|p|] == p
  }

  /** strings.TrimPrefix: `s` without `p` when it starts with `p`, else `s`. */
  function TrimPrefix(s: string, p: string): (r: string)
    ensures HasPrefix(s, p) ==> p + r == s
    ensures !HasPrefix(s, p) ==> r == s
  {
    if HasPrefix(s, p) then
      assert s == s[..|p|] + s[|p|..];
      s[|p|..]
    else s
  }

  /** `sub` occurs in `s` starting at index `i`. */
  predicate OccursAt(s: string, sub: string, i: nat)
  {
    i + |sub| <= |s| && s[i..i + |sub|] == sub
  }

  /** strings.Contains */
  predicate Contains(s: string, sub: string)
  {
    exists i: nat :: i <= |s| && OccursAt(s, sub, i)
  }

  /** Index of the first ' ' in `s`, if any. */
  function IndexOfSpace(s: string): (r: int)
    ensures -1 <= r < |s|
    ensures r == -1 <==> (forall i :: 0 <= i < |s| ==> s[i] != ' ')
    ensures r >= 0 ==> s[r] == ' ' && forall i :: 0 <= i < r ==> s[i] != ' '
  {
    if |s| == 0 then -1
    else if s[0] == ' ' then 0
    else
      var k := IndexOfSpace(s[1..]);
      if k == -1 then -1 else k + 1
  }

  /** strings.SplitN(s, " ", 2): the whole string when it has no space,
      otherwise the parts before and after the first space. */
  function SplitFirstSpace(s: string): (r: seq<string>)
  {
    var k := IndexOfSpace(s);
    if k == -1 then [s] else [s[..k], s[k + 1..]]
  }

  predicate IsSpace(c: char)
  {
    c == ' ' || c == '\t' || c == '\n' || c == '\r' || c == '\U{0B}' || c == '\U{0C}'
  }

  function TrimLeft(s: string): string
  {
    if |s| > 0 && IsSpace(s[0]) then TrimLeft(s[1..]) else s
  }

  function TrimRight(s: string): string
  {
    if |s| > 0 && IsSpace(s[|s| - 1]) then TrimRight(s[..|s| - 1]) else s
  }

  /** strings.TrimSpace */
  function TrimSpace(s: string): string
  {
    TrimRight(TrimLeft(s))
  }

  function UpperChar(c: char): char
  {
    if 'a' <= c <= 'z' then (c as int - 'a' as int + 'A' as int) as char else c
  }

  /** strings.ToUpper */
  function ToUpper(s: string): (r: string)
    ensures |r| == |s|
    ensures forall i :: 0 <= i < |s| ==> r[i] == UpperChar(s[i])
  {
    if |s| == 0 then "" else [UpperChar(s[0])] + ToUpper(s[1..])
  }
}

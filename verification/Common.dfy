/** Small shared definitions: optional values and C string conventions. */
module Common {

  datatype Option<+T> = None | Some(value: T)

  type byte = b: int | 0 <= b < 256

  /** The part of a character buffer that a C string function sees: everything before the first NUL. */
  function CString(s: string): (r: string)
    ensures |r| <= |s| && r == s[..|r|]
    ensures '\0' !in r
    ensures |r| < |s| ==> s[|r|] == '\0'
  {
    if s == [] || s[0] == '\0' then [] else [s[0]] + CString(s[1..])
  }

  /** What `sstrncpy` leaves in a buffer of `size` characters. */
  function Truncate(s: string, size: nat): (r: string)
    requires size > 0
    ensures r <= s && |r| == if |s| < size then |s| else size - 1
    ensures |s| < size ==> r == s
  {
    if |s| < size then s else s[..size - 1]
  }

  /** `%d` of a non-negative integer. */
  function Decimal(n: nat): (r: string)
    ensures |r| > 0
    ensures forall k :: 0 <= k < |r| ==> '0' <= r[k] <= '9'
  {
    var digit := ['0' + (n % 10) as char];
    if n < 10 then digit else Decimal(n / 10) + digit
  }

  /** The number a string of decimal digits stands for. */
  function ReadDigits(s: string): nat
    requires forall k :: 0 <= k < |s| ==> '0' <= s[k] <= '9'
  {
    if s == [] then 0 else 10 * ReadDigits(s[..|s| - 1]) + (s[|s| - 1] - '0') as int
  }

  /** The digits stand for the number, and there is no leading zero. */
  lemma {:induction false} DecimalReads(n: nat)
    ensures ReadDigits(Decimal(n)) == n
    ensures |Decimal(n)| > 1 ==> Decimal(n)[0] != '0'
    ensures n > 0 ==> Decimal(n)[0] != '0'
  {
    var s := Decimal(n);
    assert s[|s| - 1] == '0' + (n % 10) as char;
    if n < 10 {
      assert s[..|s| - 1] == [];
    } else {
      DecimalReads(n / 10);
      assert s[..|s| - 1] == Decimal(n / 10);
    }
  }

  /** The byte sequences delivered by a list of reads, joined. */
  function Concat<T>(parts: seq<seq<T>>): seq<T>
  {
    if parts == [] then [] else parts[0] + Concat(parts[1..])
  }

  /** The tokens `strtok` finds: maximal non-empty runs without the separator. */
  function Tokens(s: string, sep: char): (r: seq<string>)
    ensures forall t :: t in r ==> t != [] && sep !in t
  {
    if s == [] then []
    else if s[0] == sep then Tokens(s[1..], sep)
    else var k := Until(s, sep);
         [s[..k]] + Tokens(s[k..], sep)
  }

  /** Length of the prefix without the separator. */
  function Until(s: string, sep: char): (k: nat)
    ensures k <= |s| && sep !in s[..k]
    ensures k < |s| ==> s[k] == sep
    ensures s != [] && s[0] != sep ==> k > 0
  {
    if s == [] || s[0] == sep then 0
    else assert s[..1 + Until(s[1..], sep)] == [s[0]] + s[1..][..Until(s[1..], sep)];
         1 + Until(s[1..], sep)
  }

  function Repeat(c: char, n: nat): (r: string)
    ensures |r| == n && forall i :: 0 <= i < n ==> r[i] == c
  {
    seq(n, i => c)
  }

  /** Separators, a token, separators, a token, and so on, ending in separators. */
  function Rebuilt(gaps: seq<nat>, tokens: seq<string>, sep: char): string
    requires |gaps| == |tokens| + 1
  {
    if tokens == [] then Repeat(sep, gaps[0])
    else Repeat(sep, gaps[0]) + tokens[0] + Rebuilt(gaps[1..], tokens[1..], sep)
  }

  lemma {:induction false} WiderGap(gaps: seq<nat>, tokens: seq<string>, sep: char)
    requires |gaps| == |tokens| + 1
    ensures Rebuilt([gaps[0] + 1] + gaps[1..], tokens, sep) == [sep] + Rebuilt(gaps, tokens, sep)
  {
    var wide := [gaps[0] + 1] + gaps[1..];
    assert wide[1..] == gaps[1..];
    assert Repeat(sep, gaps[0] + 1) == [sep] + Repeat(sep, gaps[0]);
    if tokens != [] {
      var tail := tokens[0] + Rebuilt(gaps[1..], tokens[1..], sep);
      assert Rebuilt(gaps, tokens, sep) == Repeat(sep, gaps[0]) + tail;
      assert Rebuilt(wide, tokens, sep) == Repeat(sep, gaps[0] + 1) + tail;
    }
  }

  lemma {:induction false} OneMoreToken(token: string, gaps: seq<nat>, tokens: seq<string>, sep: char)
    requires |gaps| == |tokens| + 1
    ensures Rebuilt([0] + gaps, [token] + tokens, sep) == token + Rebuilt(gaps, tokens, sep)
  {
    assert ([0] + gaps)[1..] == gaps && ([token] + tokens)[1..] == tokens;
    assert Repeat(sep, 0) + token == token;
  }

  /** Tokens and separators rebuild the string, with at least one separator between two tokens. */
  lemma {:induction false} TokensRebuild(s: string, sep: char) returns (gaps: seq<nat>)
    ensures |gaps| == |Tokens(s, sep)| + 1 && Rebuilt(gaps, Tokens(s, sep), sep) == s
    ensures forall i :: 0 < i < |gaps| - 1 ==> gaps[i] > 0
    ensures s != [] && s[0] == sep ==> gaps[0] > 0
    decreases |s|
  {
    hide Rebuilt, Until;
    if s == [] {
      gaps := [0];
      NothingRebuilt(sep);
    } else if s[0] == sep {
      var g := TokensRebuild(s[1..], sep);
      gaps := [g[0] + 1] + g[1..];
      WiderGap(g, Tokens(s[1..], sep), sep);
      assert s == [sep] + s[1..];
    } else {
      var k := Until(s, sep);
      var g := TokensRebuild(s[k..], sep);
      gaps := [0] + g;
      OneMoreToken(s[..k], g, Tokens(s[k..], sep), sep);
      assert s == s[..k] + s[k..];
      assert |g| > 1 ==> s[k..] != [];
    }
  }

  lemma {:induction false} NothingRebuilt(sep: char)
    ensures Rebuilt([0], [], sep) == ""
  {
  }

  /** Taking one element out of a sequence takes it out of its multiset. */
  lemma {:induction false} Without<T>(s: seq<T>, k: nat)
    requires k < |s|
    ensures s == s[..k] + [s[k]] + s[k + 1..]
    ensures multiset(s[..k] + s[k + 1..]) == multiset(s) - multiset{s[k]}
    ensures |s[..k] + s[k + 1..]| == |s| - 1
  {
    assert s == s[..k] + [s[k]] + s[k + 1..];
  }

  /** Position of the first element with this name, or the length. */
  function FindBy<T>(s: seq<T>, nameOf: T -> string, name: string): (k: nat)
    ensures k <= |s|
    ensures forall i :: 0 <= i < k ==> nameOf(s[i]) != name
    ensures k < |s| ==> nameOf(s[k]) == name
  {
    if s == [] || nameOf(s[0]) == name then 0 else 1 + FindBy(s[1..], nameOf, name)
  }
}

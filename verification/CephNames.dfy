/** The bounded name compactor of the ceph plugin. */
module CephNames {
  import opened Common

  predicate Special(c: char) { c == ':' || c == '_' || c == '-' || c == '+' }

  function Upper(c: char): char
  {
    if 'a' <= c <= 'z' then c - 'a' + 'A' else c
  }

  /** The simple form, character by character: specials vanish, what follows one is capitalised. */
  function Compact(s: string, capital: bool): (r: string)
    ensures |r| <= |s| && forall i :: 0 <= i < |r| ==> !Special(r[i])
    ensures '\0' !in s ==> '\0' !in r
  {
    if s == [] then []
    else if Special(s[0]) then Compact(s[1..], true)
    else [if capital then Upper(s[0]) else s[0]] + Compact(s[1..], false)
  }

  /** The word that replaces a trailing sign, and the name without that sign. */
  function Suffix(src: string): (r: string)
    requires src != []
    ensures |r| <= 5 && '\0' !in r && forall i :: 0 <= i < |r| ==> !Special(r[i])
  {
    if src[|src| - 1] == '+' then "Plus" else if src[|src| - 1] == '-' then "Minus" else ""
  }

  function Stem(src: string): string
    requires src != []
  {
    if Suffix(src) == "" then src else src[..|src| - 1]
  }

  /** Cut to `n` characters. */
  function Cut(s: string, n: nat): (r: string)
    ensures r <= s && |r| == if |s| <= n then |s| else n
    ensures |s| <= n ==> r == s
  {
    if |s| <= n then s else s[..n]
  }

  /** The compacted name: the body cut to fit, and then cut again to make room for the suffix. */
  function Name(src: string, size: nat): string
    requires src != [] && size > 5
  {
    var body := Cut(Compact(Stem(src), true), size - 1);
    if Suffix(src) == "" then body else Cut(body, size - 1 - |Suffix(src)|) + Suffix(src)
  }

  predicate HasPlain(s: string) { exists i :: 0 <= i < |s| && !Special(s[i]) }

  /** The two words, and nothing else. */
  lemma {:induction false} Words(name: string, c: char)
    ensures Suffix(name + "+") == "Plus" && Stem(name + "+") == name
    ensures Suffix(name + "-") == "Minus" && Stem(name + "-") == name
    ensures c != '+' && c != '-' ==> Suffix(name + [c]) == "" && Stem(name + [c]) == name + [c]
  {
    assert (name + "+")[..|name|] == name && (name + "-")[..|name|] == name;
  }

  /** Capitalising takes the 26 small letters to the large ones and leaves every other character alone. */
  lemma {:induction false} Capitals(i: nat, c: char)
    ensures i < 26 ==> Upper("abcdefghijklmnopqrstuvwxyz"[i]) == "ABCDEFGHIJKLMNOPQRSTUVWXYZ"[i]
    ensures c < 'a' || 'z' < c ==> Upper(c) == c
  {
  }

  /** For every name: it fits, holds no special character, ends in the whole suffix even when cut, and
      what precedes the suffix is the start of the capitalised tokens. */
  lemma {:induction false} NameProperties(src: string, size: nat)
    requires src != [] && size > 5
    ensures var name, word := Name(src, size), Suffix(src);
            && |name| < size
            && (forall i :: 0 <= i < |name| ==> !Special(name[i]))
            && |name| >= |word| && name[|name| - |word|..] == word
            && name[..|name| - |word|] <= Compact(Stem(src), true)
            && (|Compact(Stem(src), true)| + |word| < size ==> name == Compact(Stem(src), true) + word)
    ensures HasPlain(src) && size > |Suffix(src)| + 1 ==> |Name(src, size)| > |Suffix(src)|
  {
    hide Compact;
    var body, word := Compact(Stem(src), true), Suffix(src);
    var kept := Cut(body, size - 1 - |word|);
    CutTwice(body, size - 1 - |word|, size - 1);
    assert word == "" ==> kept + word == kept;
    assert Name(src, size) == kept + word;
    assert (kept + word)[|kept|..] == word && (kept + word)[..|kept|] == kept;
    if HasPlain(src) {
      PlainInStem(src);
      PlainSurvives(Stem(src), true);
    }
  }

  lemma {:induction false} CutTwice(s: string, m: nat, n: nat)
    requires m <= n
    ensures Cut(Cut(s, n), m) == Cut(s, m)
  {
  }

  lemma {:induction false} PlainInStem(src: string)
    requires src != []
    ensures HasPlain(Stem(src)) == HasPlain(src)
  {
    if HasPlain(src) {
      var i :| 0 <= i < |src| && !Special(src[i]);
      assert Stem(src)[i] == src[i];
    }
  }

  lemma {:induction false} PlainSurvives(s: string, capital: bool)
    requires HasPlain(s)
    ensures |Compact(s, capital)| > 0
  {
    var i :| 0 <= i < |s| && !Special(s[i]);
    if Special(s[0]) {
      assert s[1..][i - 1] == s[i];
      PlainSurvives(s[1..], true);
    }
  }

  // ------------------------------------------------------------------------ the token loop

  /** A run of plain characters is copied, its first one capitalised if asked. */
  lemma {:induction false} CompactToken(token: string, rest: string, capital: bool)
    requires token != [] && forall i :: 0 <= i < |token| ==> !Special(token[i])
    ensures Compact(token + rest, capital)
         == [if capital then Upper(token[0]) else token[0]] + token[1..] + Compact(rest, false)
  {
    assert (token + rest)[1..] == token[1..] + rest;
    if |token| > 1 {
      CompactToken(token[1..], rest, false);
      assert token[1..] == [token[1]] + token[1..][1..];
    } else {
      assert token[1..] + rest == rest;
    }
  }

  lemma {:induction false} CompactSkip(skip: string, rest: string)
    requires forall i :: 0 <= i < |skip| ==> Special(skip[i])
    ensures Compact(skip + rest, true) == Compact(rest, true)
  {
    if skip == [] {
      assert skip + rest == rest;
    } else {
      assert (skip + rest)[1..] == skip[1..] + rest;
      CompactSkip(skip[1..], rest);
    }
  }

  lemma {:induction false} Boundary(rest: string)
    requires rest == [] || Special(rest[0])
    ensures Compact(rest, false) == Compact(rest, true)
  {
  }

  /** `s[start..end]` is the first maximal run of plain characters at or after `pos`; it is empty only
      at the end. */
  ghost predicate IsToken(s: string, pos: nat, start: nat, end: nat)
  {
    && pos <= start <= end <= |s| && (start == end ==> start == |s|)
    && (forall i :: pos <= i < start ==> Special(s[i]))
    && (forall i :: start <= i < end ==> !Special(s[i]))
    && (end < |s| ==> Special(s[end]))
  }

  function Capitalised(token: string): string
    requires token != []
  {
    [Upper(token[0])] + token[1..]
  }

  lemma {:induction false} TokenStep(s: string, pos: nat, start: nat, end: nat)
    requires IsToken(s, pos, start, end) && start < end
    ensures Compact(s[pos..], true) == Capitalised(s[start..end]) + Compact(s[end..], true)
    ensures HasPlain(s)
  {
    hide Compact;
    assert s[pos..] == s[pos..start] + s[start..];
    CompactSkip(s[pos..start], s[start..]);
    assert s[start..] == s[start..end] + s[end..];
    CompactToken(s[start..end], s[end..], true);
    Boundary(s[end..]);
  }

  lemma {:induction false} NoToken(s: string, pos: nat, start: nat)
    requires IsToken(s, pos, start, start)
    ensures Compact(s[pos..], true) == "" && (pos == 0 ==> !HasPlain(s))
  {
    assert s[pos..] + [] == s[pos..];
    CompactSkip(s[pos..], []);
  }

  /** `strtok_r`: the next token at or after `pos`. */
  method NextToken(s: string, pos: nat) returns (start: nat, end: nat)
    requires pos <= |s|
    ensures IsToken(s, pos, start, end) && pos <= start <= end <= |s|
  {
    start := pos;
    while start < |s| && Special(s[start])
      invariant pos <= start <= |s|
      invariant forall i :: pos <= i < start ==> Special(s[i])
    {
      start := start + 1;
    }
    end := start;
    while end < |s| && !Special(s[end])
      invariant start <= end <= |s|
      invariant forall i :: start <= i < end ==> !Special(s[i])
    {
      end := end + 1;
    }
  }

  /** `sstrncpy` of the first `n` characters of `text` to `at`, with the terminating NUL. */
  method CopyAt(buffer: array<char>, at: nat, text: string, n: nat)
    requires n <= |text| && at + n < buffer.Length
    modifies buffer
    ensures buffer[..at] == old(buffer[..at]) && buffer[at..at + n] == text[..n] && buffer[at + n] == '\0'
  {
    forall i | 0 <= i < n {
      buffer[at + i] := text[i];
    }
    buffer[at + n] := '\0';
  }

  lemma {:induction false} CStringEnds(s: string, n: nat)
    requires n < |s| && s[n] == '\0' && '\0' !in s[..n]
    ensures CString(s) == s[..n]
  {
    if n > 0 {
      assert s[..n][0] == s[0];
      assert s[1..][..n - 1] == s[..n][1..];
      CStringEnds(s[1..], n - 1);
    }
  }

  /** The token loop: capitalise, append what fits, stop when the buffer is full. */
  method WriteTokens(buffer: array<char>, stem: string) returns (ptr: nat)
    requires buffer.Length > 5
    modifies buffer
    ensures HasPlain(stem) ==> ptr < buffer.Length && buffer[ptr] == '\0' &&
                               buffer[..ptr] == Cut(Compact(stem, true), buffer.Length - 1)
    ensures !HasPlain(stem) ==> ptr == 0 && buffer[..] == old(buffer[..])
  {
    hide Compact, HasPlain, Capitalised, IsToken;
    ghost var all, done := Compact(stem, true), "";
    ptr := 0;
    var room, pos := buffer.Length, 0;
    assert stem[0..] == stem;
    var start, end := NextToken(stem, pos);
    while start < end
      invariant IsToken(stem, pos, start, end) && pos <= start <= end <= |stem|
      invariant room > 1 && ptr + room == buffer.Length && |done| == ptr
      invariant buffer[..ptr] == done && all == done + Compact(stem[pos..], true)
      invariant if pos == 0 then ptr == 0 && buffer[..] == old(buffer[..])
                else buffer[ptr] == '\0' && HasPlain(stem)
      decreases |stem| - pos
    {
      TokenStep(stem, pos, start, end);
      var token := Capitalised(stem[start..end]);
      var len := if |token| >= room then room - 1 else |token|;
      TokenLength(stem[start..end]);
      assert 0 < len < room;
      CopyAt(buffer, ptr, token, len);
      assert buffer[..ptr + len] == done + token[..len];
      ptr, room := ptr + len, room - len;
      if room <= 1 {
        FullCut(all, done, token, Compact(stem[end..], true), len);
        return;
      }
      done := done + token;
      pos := end;
      start, end := NextToken(stem, pos);
    }
    NoToken(stem, pos, start);
    assert all == done;
  }

  lemma {:induction false} TokenLength(token: string)
    requires token != []
    ensures |Capitalised(token)| == |token|
  {
  }

  lemma {:induction false} FullCut(all: string, done: string, token: string, rest: string, len: nat)
    requires all == done + (token + rest) && len <= |token|
    ensures done + token[..len] == Cut(all, |done| + len)
  {
  }

  method StrLen(buffer: array<char>) returns (n: nat)
    requires '\0' in buffer[..]
    ensures n < buffer.Length && CString(buffer[..]) == buffer[..n]
  {
    ghost var z :| 0 <= z < buffer.Length && buffer[z] == '\0';
    n := 0;
    while buffer[n] != '\0'
      invariant 0 <= n <= z
      invariant forall i :: 0 <= i < n ==> buffer[i] != '\0'
      decreases buffer.Length - n
    {
      n := n + 1;
    }
    CStringEnds(buffer[..], n);
  }

  lemma {:induction false} EndsInWord(s: string, base: string, word: string)
    requires |base| + |word| < |s| && s[..|base|] == base && s[|base|..|base| + |word|] == word
    requires '\0' !in base && '\0' !in word && s[|base| + |word|] == '\0'
    ensures CString(s) == base + word
  {
    var k := |base| + |word|;
    assert s[..k] == s[..|base|] + s[|base|..k];
    CStringEnds(s, k);
  }

  /** The suffix goes behind the name, or over its end where there is no room. */
  method AppendWord(buffer: array<char>, word: string)
    requires 0 < |word| <= 5 < buffer.Length && '\0' !in word && '\0' in buffer[..]
    modifies buffer
    ensures CString(buffer[..]) == Cut(CString(old(buffer[..])), buffer.Length - 1 - |word|) + word
  {
    hide CString;
    var n := StrLen(buffer);
    ghost var name := CString(buffer[..]);
    var offset := buffer.Length - (|word| + 1);
    if offset > n {
      offset := n;
    }
    ghost var base := Cut(name, buffer.Length - 1 - |word|);
    assert buffer[..offset] == base;
    CopyAt(buffer, offset, word, |word|);
    assert buffer[..][..offset] == buffer[..offset] && buffer[..][offset..offset + |word|] == buffer[offset..offset + |word|];
    EndsInWord(buffer[..], base, word);
  }

  const EINVAL := 22

  /** `compact_ds_name`. A source without any plain character leaves the buffer as it was, up to the
      suffix; only then does the old content matter. For an empty source the code looks in front of its
      copy, before which everything is as it was. */
  method CompactDsName(buffer: array<char>, src: string) returns (status: int, fault: bool)
    requires '\0' !in src
    requires HasPlain(src) || '\0' in buffer[..]
    modifies buffer
    ensures status == if buffer.Length <= 5 then EINVAL else 0
    ensures fault <==> status == 0 && src == ""
    ensures status == 0 && HasPlain(src) ==> CString(buffer[..]) == Name(src, buffer.Length)
    ensures status == 0 && src != "" && !HasPlain(src) && Suffix(src) != "" ==>
            CString(buffer[..]) == Cut(CString(old(buffer[..])), buffer.Length - 1 - |Suffix(src)|) + Suffix(src)
    ensures (status != 0 || src == "" || (!HasPlain(src) && Suffix(src) == "")) ==> buffer[..] == old(buffer[..])
  {
    hide Compact, CString;
    if buffer.Length <= 5 {
      return EINVAL, false;
    }
    if src == "" {
      return 0, true;
    }
    var stem, word := Stem(src), Suffix(src);
    PlainInStem(src);
    var filled := WriteTokens(buffer, stem);
    if HasPlain(src) {
      assert buffer[..][..filled] == buffer[..filled];
      assert '\0' !in buffer[..filled];
      CStringEnds(buffer[..], filled);
      assert buffer[filled] in buffer[..];
    }
    if word != "" {
      AppendWord(buffer, word);
    }
    return 0, false;
  }
}

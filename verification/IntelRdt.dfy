/** Process name groups of the intel_rdt plugin: parsing the configured lists and refusing groups that share a
    name. */
module IntelRdt {
  import opened Common

  const MAX_PROC_NAME_LEN := 16
  const MAX_NAMES_GROUPS := 64
  const DATA_MAX_NAME_LEN := 128

  /** The part of a name that `strncmp` looks at. */
  function Head(s: string): string
  {
    if |s| <= MAX_PROC_NAME_LEN then s else s[..MAX_PROC_NAME_LEN]
  }

  function Heads(names: seq<string>): set<string>
  {
    set i | 0 <= i < |names| :: Head(names[i])
  }

  /** No two names agree up to the maximal length. */
  ghost predicate Distinct(names: seq<string>)
  {
    forall i, j :: 0 <= i < j < |names| ==> Head(names[i]) != Head(names[j])
  }

  /** Character `i` of a C string; the terminating NUL counts. */
  function CharAt(s: string, i: nat): char
  {
    if i < |s| then s[i] else '\0'
  }

  /** Equal heads are what `strncmp` over 16 characters finds equal. */
  lemma {:induction false} HeadsCompare(a: string, b: string)
    requires '\0' !in a && '\0' !in b
    ensures Head(a) == Head(b) <==> forall i :: 0 <= i < 16 ==> CharAt(a, i) == CharAt(b, i)
  {
    var x, y := Head(a), Head(b);
    if forall i :: 0 <= i < 16 ==> CharAt(a, i) == CharAt(b, i) {
      assert |x| < 16 ==> CharAt(a, |x|) == CharAt(b, |x|);
      assert |y| < 16 ==> CharAt(a, |y|) == CharAt(b, |y|);
      assert |x| == |y|;
      assert forall i :: 0 <= i < |x| ==> x[i] == CharAt(a, i) && y[i] == CharAt(b, i);
    }
    if x == y {
      forall i | 0 <= i < 16 ensures CharAt(a, i) == CharAt(b, i) {
        assert CharAt(a, i) == CharAt(x, i) && CharAt(b, i) == CharAt(y, i);
      }
    }
  }

  // -------------------------------------------------------------------------- comparison

  function Hits(name: string, names: seq<string>): nat
  {
    if names == [] then 0
    else Hits(name, names[..|names| - 1]) + (if Head(name) == Head(names[|names| - 1]) then 1 else 0)
  }

  /** How many pairs match. */
  function Matches(a: seq<string>, b: seq<string>): nat
  {
    if a == [] then 0 else Matches(a[..|a| - 1], b) + Hits(a[|a| - 1], b)
  }

  function Compare(a: seq<string>, b: seq<string>): int
  {
    if Matches(a, b) == 0 then 0 else if |a| == |b| == Matches(a, b) then 1 else -1
  }

  lemma {:induction false} HeadsSnoc(names: seq<string>, name: string)
    ensures Heads(names + [name]) == Heads(names) + {Head(name)}
  {
    var all := names + [name];
    forall h | h in Heads(names) + {Head(name)} ensures h in Heads(all) {
      if h == Head(name) {
        assert Head(all[|names|]) == h;
      } else {
        var i :| 0 <= i < |names| && Head(names[i]) == h;
        assert Head(all[i]) == h;
      }
    }
  }

  lemma {:induction false} HitsDistinct(name: string, names: seq<string>)
    requires Distinct(names)
    ensures Hits(name, names) == if Head(name) in Heads(names) then 1 else 0
  {
    if names != [] {
      var n := |names| - 1;
      HitsDistinct(name, names[..n]);
      HeadsSnoc(names[..n], names[n]);
      assert names == names[..n] + [names[n]];
    }
  }

  lemma {:induction false} SizeDistinct(names: seq<string>)
    requires Distinct(names)
    ensures |Heads(names)| == |names|
  {
    if names != [] {
      var n := |names| - 1;
      SizeDistinct(names[..n]);
      HeadsSnoc(names[..n], names[n]);
      assert names == names[..n] + [names[n]];
      assert Head(names[n]) !in Heads(names[..n]);
    }
  }

  lemma {:induction false} DistinctSnoc(names: seq<string>)
    requires Distinct(names) && names != []
    ensures Distinct(names[..|names| - 1]) && Head(names[|names| - 1]) !in Heads(names[..|names| - 1])
  {
    hide Head;
  }

  lemma {:induction false} OneMore(x: set<string>, h: string, y: set<string>)
    requires h !in x
    ensures |(x + {h}) * y| == |x * y| + if h in y then 1 else 0
  {
    if h in y {
      assert (x + {h}) * y == x * y + {h};
    } else {
      assert (x + {h}) * y == x * y;
    }
  }

  /** How many names two lists share. */
  function Shared(a: seq<string>, b: seq<string>): nat
  {
    |Heads(a) * Heads(b)|
  }

  lemma {:induction false} SharedSnoc(a: seq<string>, b: seq<string>)
    requires a != [] && Distinct(a)
    ensures Shared(a, b) == Shared(a[..|a| - 1], b) + if Head(a[|a| - 1]) in Heads(b) then 1 else 0
  {
    hide Head, Heads, Distinct;
    var n := |a| - 1;
    DistinctSnoc(a);
    HeadsSnoc(a[..n], a[n]);
    assert a == a[..n] + [a[n]];
    OneMore(Heads(a[..n]), Head(a[n]), Heads(b));
  }

  /** For lists without duplicates the number of matching pairs is the size of the intersection. */
  lemma {:induction false} MatchesDistinct(a: seq<string>, b: seq<string>)
    requires Distinct(a) && Distinct(b)
    ensures Matches(a, b) == Shared(a, b)
  {
    if a == [] {
      assert Heads(a) * Heads(b) == {};
    } else {
      hide Head, Hits, Heads, Distinct, Shared;
      DistinctSnoc(a);
      MatchesDistinct(a[..|a| - 1], b);
      HitsDistinct(a[|a| - 1], b);
      SharedSnoc(a, b);
    }
  }

  lemma {:induction false} Sizes(x: set<string>, y: set<string>)
    ensures |x * y| == 0 <==> x !! y
    ensures |x * y| == |x| == |y| <==> x == y
  {
    assert |x * y| == 0 <==> x * y == {};
    assert x == x * y + (x - y) && y == x * y + (y - x);
    assert |x| == |x * y| + |x - y|;
    assert |y| == |x * y| + |y - x|;
    if x == y {
      assert x - y == {} && y - x == {};
    }
    if |x * y| == |x| == |y| {
      assert x - y == {} && y - x == {};
    }
  }

  /** `ngroup_cmp` on lists without duplicates: 1 for equal sets, 0 for disjoint ones, -1 otherwise. */
  lemma {:induction false} CompareMeaning(a: seq<string>, b: seq<string>)
    requires Distinct(a) && Distinct(b)
    ensures Compare(a, b) == 0 <==> Heads(a) !! Heads(b)
    ensures Compare(a, b) == 1 <==> Heads(a) == Heads(b) && a != []
    ensures Compare(a, b) == -1 <==> !(Heads(a) !! Heads(b)) && Heads(a) != Heads(b)
  {
    hide Heads, Matches, Distinct;
    MatchesDistinct(a, b);
    SizeDistinct(a);
    SizeDistinct(b);
    Sizes(Heads(a), Heads(b));
  }

  /** Duplicates would break it: the counts agree although the sets differ. */
  lemma {:induction false} CompareNeedsDistinct()
    ensures Compare(["x", "x"], ["x", "y"]) == 1 && Heads(["x", "x"]) != Heads(["x", "y"])
  {
    var a, b := ["x", "x"], ["x", "y"];
    assert Hits("x", b) == 1 by {
      assert b[..1] == ["x"] && b[..1][..0] == [];
      assert Hits("x", ["x"]) == 1;
    }
    assert a[..1] == ["x"] && a[..1][..0] == [];
    assert Matches(["x"], b) == 1;
    assert Head(b[1]) in Heads(b) && "y" !in Heads(a);
  }

  // ------------------------------------------------------------------------------ parsing

  predicate IsSpace(c: char)
  {
    c == ' ' || '\t' <= c <= '\r'
  }

  function Strip(s: string): string
  {
    if s != [] && IsSpace(s[0]) then Strip(s[1..]) else s
  }

  /** Only white space is cut off in front, and all of it. */
  lemma {:induction false} StripCuts(s: string)
    ensures |Strip(s)| <= |s| && Strip(s) == s[|s| - |Strip(s)|..]
    ensures forall i :: 0 <= i < |s| - |Strip(s)| ==> s[i] in " \t\n\r" || s[i] == 11 as char || s[i] == 12 as char
    ensures Strip(s) != [] ==> Strip(s)[0] !in " \t\n\r" && Strip(s)[0] != 11 as char && Strip(s)[0] != 12 as char
  {
    if s != [] && IsSpace(s[0]) {
      StripCuts(s[1..]);
      forall i | 0 <= i < |s| - |Strip(s)| ensures s[i] in " \t\n\r" || s[i] == 11 as char || s[i] == 12 as char {
        assert i > 0 ==> s[i] == s[1..][i - 1];
        assert " \t\n\r"[0] == ' ' && " \t\n\r"[1] == '\t' && " \t\n\r"[2] == '\n' && " \t\n\r"[3] == '\r';
      }
    }
  }

  /** The tokens without leading white space, where anything is left. */
  function Stripped(tokens: seq<string>): seq<string>
  {
    if tokens == [] then []
    else Stripped(tokens[..|tokens| - 1]) +
         (var t := Strip(tokens[|tokens| - 1]); if t == [] then [] else [t])
  }

  predicate EmptyWord(s: string)
  {
    exists i :: 0 <= i < |s| - 1 && s[i] == ',' && s[i + 1] == ','
  }

  /** `strstr` for two adjacent commas. */
  lemma {:induction false} EmptyWordSplits(s: string)
    ensures EmptyWord(s) <==> exists a, b :: s == a + ",," + b
  {
    if i :| 0 <= i < |s| - 1 && s[i] == ',' && s[i + 1] == ',' {
      assert s == s[..i] + ",," + s[i + 2..];
    }
    if a, b :| s == a + ",," + b {
      assert s[|a|] == ',' && s[|a| + 1] == ',';
    }
  }

  function Listed(s: string): seq<string>
  {
    Stripped(Tokens(s, ','))
  }

  lemma {:induction false} StrippedGrows(tokens: seq<string>, i: nat)
    requires i <= |tokens|
    ensures Stripped(tokens[..i]) <= Stripped(tokens)
    decreases |tokens|
  {
    var n := |tokens| - 1;
    if i == |tokens| {
      assert tokens[..i] == tokens;
    } else {
      StrippedGrows(tokens[..n], i);
      assert tokens[..n][..i] == tokens[..i];
    }
  }

  /** `isdupstr`. */
  method IsDupStr(names: seq<string>, name: string) returns (dup: bool)
    ensures dup <==> Head(name) in Heads(names)
  {
    var i := 0;
    while i < |names|
      invariant 0 <= i <= |names|
      invariant forall k :: 0 <= k < i ==> Head(names[k]) != Head(name)
    {
      if Head(names[i]) == Head(name) {
        return true;
      }
      i := i + 1;
    }
    return false;
  }

  /** `strlisttoarray`: fails exactly on an empty word or a duplicate. */
  method StrListToArray(s: string) returns (names: Option<seq<string>>)
    ensures names.Some? <==> !EmptyWord(s) && Distinct(Listed(s))
    ensures names.Some? ==> names.value == Listed(s)
  {
    hide Tokens, Stripped, Head, Heads, Distinct;
    if exists i :: 0 <= i < |s| - 1 && s[i] == ',' && s[i + 1] == ',' {
      return None;
    }
    var tokens, found := Tokens(s, ','), [];
    var i := 0;
    StrippedSnoc(tokens, 0);
    DistinctMore([], "");
    while i < |tokens|
      invariant 0 <= i <= |tokens|
      invariant found == Stripped(tokens[..i]) && Distinct(found)
    {
      var t := Strip(tokens[i]);
      StrippedSnoc(tokens, i);
      i := i + 1;
      if t == [] {
        continue;
      }
      var dup := IsDupStr(found, t);
      if dup {
        StrippedGrows(tokens, i);
        Repeated(found, t);
        return None;
      }
      DistinctMore(found, t);
      found := found + [t];
    }
    assert tokens[..i] == tokens;
    return Some(found);
  }

  lemma {:induction false} DistinctMore(names: seq<string>, name: string)
    ensures Distinct([])
    ensures Distinct(names) && Head(name) !in Heads(names) ==> Distinct(names + [name])
  {
    hide Head;
  }

  lemma {:induction false} StrippedSnoc(tokens: seq<string>, i: nat)
    requires i <= |tokens|
    ensures Stripped(tokens[..0]) == []
    ensures i < |tokens| ==>
              Stripped(tokens[..i + 1]) ==
              if Strip(tokens[i]) == [] then Stripped(tokens[..i]) else Stripped(tokens[..i]) + [Strip(tokens[i])]
  {
    if i < |tokens| {
      assert tokens[..i + 1][..i] == tokens[..i];
      assert Stripped(tokens[..i]) + [] == Stripped(tokens[..i]);
    }
  }

  lemma {:induction false} Repeated(names: seq<string>, name: string)
    requires Head(name) in Heads(names)
    ensures forall all :: names + [name] <= all ==> !Distinct(all)
  {
    var k :| 0 <= k < |names| && Head(names[k]) == Head(name);
    forall all | names + [name] <= all ensures !Distinct(all) {
      assert all[k] == (names + [name])[k] && all[|names|] == (names + [name])[|names|];
      assert Head(all[k]) == Head(all[|names|]);
    }
  }

  /** `ngroup_cmp`. */
  method NgroupCmp(a: seq<string>, b: seq<string>) returns (r: int)
    ensures r == Compare(a, b)
  {
    hide Head;
    var found, i := 0, 0;
    while i < |a|
      invariant 0 <= i <= |a| && found == Matches(a[..i], b)
    {
      var j := 0;
      while j < |b|
        invariant 0 <= j <= |b| && found == Matches(a[..i], b) + Hits(a[i], b[..j])
      {
        assert b[..j + 1][..j] == b[..j];
        if Head(a[i]) == Head(b[j]) {
          found := found + 1;
        }
        j := j + 1;
      }
      assert b[..j] == b && a[..i + 1][..i] == a[..i];
      i := i + 1;
    }
    assert a[..i] == a;
    if found == 0 {
      return 0;
    }
    if |a| == |b| == found {
      return 1;
    }
    return -1;
  }

  // -------------------------------------------------------------------------- configuration

  /** The list a configured value stands for: long values are cut. */
  function GroupOf(value: string): seq<string>
  {
    Listed(Truncate(value, DATA_MAX_NAME_LEN))
  }

  ghost predicate GoodValue(value: string)
  {
    value != "" && !EmptyWord(Truncate(value, DATA_MAX_NAME_LEN)) && Distinct(GroupOf(value)) && GroupOf(value) != []
  }

  function Groups(values: seq<string>): seq<seq<string>>
  {
    seq(|values|, i requires 0 <= i < |values| => GroupOf(values[i]))
  }

  /** The values that are used: the first 64. */
  function Used(values: seq<string>): (r: seq<string>)
    ensures r <= values
  {
    if |values| <= MAX_NAMES_GROUPS then values else values[..MAX_NAMES_GROUPS]
  }

  /** `oconfig_to_ngroups`. */
  method OconfigToNgroups(values: seq<string>) returns (groups: Option<seq<seq<string>>>)
    ensures groups.Some? <==> forall i :: 0 <= i < |Used(values)| ==> GoodValue(Used(values)[i])
    ensures groups.Some? ==> groups.value == Groups(Used(values))
  {
    hide Listed, Distinct, EmptyWord, Truncate;
    var found: seq<seq<string>> := [];
    var j := 0;
    while j < |values|
      invariant 0 <= j <= |values| && j <= MAX_NAMES_GROUPS && (j < |values| ==> j < MAX_NAMES_GROUPS)
      invariant |found| == j && forall i :: 0 <= i < j ==> GoodValue(values[i]) && found[i] == GroupOf(values[i])
    {
      assert j < |Used(values)| && Used(values)[j] == values[j];
      if |values[j]| == 0 {
        return None;
      }
      var names := StrListToArray(Truncate(values[j], DATA_MAX_NAME_LEN));
      if names.None? || |names.value| == 0 {
        return None;
      }
      found := found + [names.value];
      j := j + 1;
      if j >= MAX_NAMES_GROUPS {
        break;
      }
    }
    assert |Used(values)| == j && forall i :: 0 <= i < j ==> Used(values)[i] == values[i];
    return Some(found);
  }

  predicate ValidName(name: string)
  {
    0 < |name| <= MAX_PROC_NAME_LEN
  }

  ghost predicate AllValid(groups: seq<seq<string>>)
  {
    forall g, k :: 0 <= g < |groups| && 0 <= k < |groups[g]| ==> ValidName(groups[g][k])
  }

  ghost predicate Unmatched(groups: seq<seq<string>>)
  {
    forall i, j :: 0 <= j < i < |groups| ==> Compare(groups[j], groups[i]) == 0
  }

  /** The name check of `rdt_config_ngroups`. */
  method CheckNames(groups: seq<seq<string>>) returns (ok: bool)
    ensures ok <==> AllValid(groups)
  {
    var g := 0;
    while g < |groups|
      invariant 0 <= g <= |groups|
      invariant forall i, k :: 0 <= i < g && 0 <= k < |groups[i]| ==> ValidName(groups[i][k])
    {
      var n := 0;
      while n < |groups[g]|
        invariant 0 <= n <= |groups[g]|
        invariant forall k :: 0 <= k < n ==> ValidName(groups[g][k])
      {
        if !(0 < |groups[g][n]| <= MAX_PROC_NAME_LEN) {
          assert !ValidName(groups[g][n]);
          return false;
        }
        n := n + 1;
      }
      g := g + 1;
    }
    return true;
  }

  /** The pairwise check of `rdt_config_ngroups`. */
  method CheckPairs(groups: seq<seq<string>>) returns (ok: bool)
    ensures ok <==> Unmatched(groups)
  {
    hide Compare;
    var i := 0;
    while i < |groups|
      invariant 0 <= i <= |groups|
      invariant forall k, j :: 0 <= j < k < i ==> Compare(groups[j], groups[k]) == 0
    {
      var j := 0;
      while j < i
        invariant 0 <= j <= i
        invariant forall k :: 0 <= k < j ==> Compare(groups[k], groups[i]) == 0
      {
        var found := NgroupCmp(groups[j], groups[i]);
        if found != 0 {
          return false;
        }
        j := j + 1;
      }
      i := i + 1;
    }
    return true;
  }

  /** No name occurs twice, neither in one group nor in two. */
  ghost predicate NoneTwice(groups: seq<seq<string>>)
  {
    forall i, j, k, l | 0 <= i < |groups| && 0 <= j < |groups| && 0 <= k < |groups[i]| && 0 <= l < |groups[j]| ::
      groups[i][k] == groups[j][l] ==> i == j && k == l
  }

  /** What a configuration should satisfy, in terms of the full names alone. */
  ghost predicate Acceptable(values: seq<string>)
  {
    && values != []
    && (forall i :: 0 <= i < |values| ==>
          values[i] != "" && !EmptyWord(Truncate(values[i], DATA_MAX_NAME_LEN)) && GroupOf(values[i]) != [])
    && (forall i, k :: 0 <= i < |values| && 0 <= k < |GroupOf(values[i])| ==> 1 <= |GroupOf(values[i])[k]| <= 16)
    && NoneTwice(Groups(values))
  }

  lemma {:induction false} ValidSpelled(values: seq<string>)
    ensures AllValid(Groups(values)) <==>
            forall i, k :: 0 <= i < |values| && 0 <= k < |GroupOf(values[i])| ==> 1 <= |GroupOf(values[i])[k]| <= 16
  {
    hide GroupOf;
    assert forall i :: 0 <= i < |values| ==> Groups(values)[i] == GroupOf(values[i]);
    if AllValid(Groups(values)) {
      forall i, k | 0 <= i < |values| && 0 <= k < |GroupOf(values[i])| ensures 1 <= |GroupOf(values[i])[k]| <= 16 {
        assert ValidName(Groups(values)[i][k]);
      }
    }
  }

  lemma {:induction false} DisjointMeans(a: seq<string>, b: seq<string>)
    requires Distinct(a) && Distinct(b)
    requires (forall k :: 0 <= k < |a| ==> ValidName(a[k])) && forall l :: 0 <= l < |b| ==> ValidName(b[l])
    ensures Compare(a, b) == 0 <==> forall k, l :: 0 <= k < |a| && 0 <= l < |b| ==> a[k] != b[l]
  {
    hide Compare, Distinct;
    CompareMeaning(a, b);
    assert forall k :: 0 <= k < |a| ==> a[k] == Head(a[k]) && a[k] in Heads(a);
    assert forall l :: 0 <= l < |b| ==> b[l] == Head(b[l]) && b[l] in Heads(b);
    if !(Heads(a) !! Heads(b)) {
      var h :| h in Heads(a) && h in Heads(b);
      var k :| 0 <= k < |a| && Head(a[k]) == h;
      var l :| 0 <= l < |b| && Head(b[l]) == h;
      assert a[k] == b[l];
    }
  }

  lemma {:induction false} DistinctMeans(a: seq<string>)
    requires forall k :: 0 <= k < |a| ==> ValidName(a[k])
    ensures Distinct(a) <==> forall k, l :: 0 <= k < |a| && 0 <= l < |a| && a[k] == a[l] ==> k == l
  {
    assert forall k :: 0 <= k < |a| ==> a[k] == Head(a[k]);
  }

  /** For valid names the checks by group, up to 16 characters, are the check of all names at once. */
  lemma {:induction false} NoneTwiceMeans(groups: seq<seq<string>>)
    requires AllValid(groups)
    ensures NoneTwice(groups) <==> (forall g :: 0 <= g < |groups| ==> Distinct(groups[g])) && Unmatched(groups)
  {
    hide Compare, Distinct, ValidName;
    forall g | 0 <= g < |groups|
      ensures Distinct(groups[g]) <==>
                forall k, l :: 0 <= k < |groups[g]| && 0 <= l < |groups[g]| && groups[g][k] == groups[g][l] ==> k == l
    {
      DistinctMeans(groups[g]);
    }
    if forall g :: 0 <= g < |groups| ==> Distinct(groups[g]) {
      forall i, j | 0 <= j < i < |groups|
        ensures Compare(groups[j], groups[i]) == 0 <==>
                  forall k, l :: 0 <= k < |groups[j]| && 0 <= l < |groups[i]| ==> groups[j][k] != groups[i][l]
      {
        DisjointMeans(groups[j], groups[i]);
      }
    }
  }

  /** `rdt_config_ngroups`: a configuration is accepted exactly when it is acceptable. */
  method RdtConfigNgroups(values: seq<string>) returns (groups: Option<seq<seq<string>>>)
    ensures groups.Some? <==> Acceptable(Used(values))
    ensures groups.Some? ==> groups.value == Groups(Used(values))
  {
    hide GroupOf, Truncate, EmptyWord, Distinct, AllValid, Unmatched, NoneTwice;
    groups := OconfigToNgroups(values);
    ValidSpelled(Used(values));
    assert forall i :: 0 <= i < |Used(values)| ==> Groups(Used(values))[i] == GroupOf(Used(values)[i]);
    if groups.None? {
      if AllValid(Groups(Used(values))) {
        NoneTwiceMeans(Groups(Used(values)));
      }
      return;
    }
    var valid := CheckNames(groups.value);
    if !valid || groups.value == [] {
      return None;
    }
    NoneTwiceMeans(groups.value);
    var apart := CheckPairs(groups.value);
    if !apart {
      return None;
    }
  }

  /** Groups of an accepted configuration are pairwise disjoint and without repetition. */
  lemma {:induction false} AcceptedDisjoint(values: seq<string>, i: nat, j: nat)
    requires Acceptable(values) && i < |values| && j < |values|
    ensures i != j ==> forall name :: name in GroupOf(values[i]) ==> name !in GroupOf(values[j])
    ensures |Heads(GroupOf(values[i]))| == |GroupOf(values[i])| > 0
  {
    hide GroupOf;
    ValidSpelled(values);
    NoneTwiceMeans(Groups(values));
    assert Groups(values)[i] == GroupOf(values[i]) && Groups(values)[j] == GroupOf(values[j]);
    SizeDistinct(Groups(values)[i]);
  }
}

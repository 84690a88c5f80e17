/** How the curl_json plugin turns configured key paths into the tree the matcher walks. */
module CurlJsonConfig {
  import opened Common
  import opened CurlJson

  const PATH_MAX: nat := 4096

  /** Position of the first slash, or the length when there is none (`strchr`). */
  function Slash(s: string): (k: nat)
    ensures k <= |s| && '/' !in s[..k] && (k < |s| ==> s[k] == '/')
  {
    if s == [] || s[0] == '/' then 0 else 1 + Slash(s[1..])
  }

  /** The names a path descends through. An empty component ends the descent: what is left,
      slash included, is then the last name. */
  function Components(start: string): (r: seq<string>)
    ensures |r| > 0
    decreases |start|
  {
    var k := Slash(start);
    if k == |start| || k == 0 then [start]
    else [Truncate(start[..k], PATH_MAX)] + Components(start[k + 1..])
  }

  function PathNames(path: string): (r: seq<string>)
    ensures |r| > 0
  {
    Components(if path != [] && path[0] == '/' then path[1..] else path)
  }

  function JoinPath(names: seq<string>): string
    requires |names| > 0
  {
    if |names| == 1 then names[0] else names[0] + "/" + JoinPath(names[1..])
  }

  lemma {:induction false} SlashAfter(name: string, rest: string)
    requires '/' !in name && (rest == [] || rest[0] == '/')
    ensures Slash(name + rest) == |name|
  {
    if name == [] {
      assert name + rest == rest;
    } else {
      assert (name + rest)[1..] == name[1..] + rest;
      SlashAfter(name[1..], rest);
    }
  }

  lemma {:induction false} ComponentsJoined(names: seq<string>)
    requires |names| > 0
    requires forall i :: 0 <= i < |names| ==> 0 < |names[i]| < PATH_MAX && '/' !in names[i]
    ensures var s := JoinPath(names); s != [] && s[0] != '/' && Components(s) == names
  {
    hide Slash;
    var s := JoinPath(names);
    if |names| == 1 {
      SlashAfter(s, []);
      assert s + [] == s;
      assert names == [s];
    } else {
      var tail := JoinPath(names[1..]);
      ComponentsJoined(names[1..]);
      SlashAfter(names[0], "/" + tail);
      assert names[0] + "/" + tail == names[0] + ("/" + tail);
      assert s[..|names[0]|] == names[0] && s[|names[0]| + 1..] == tail;
      assert names == [names[0]] + names[1..];
    }
    assert s[0] == names[0][0];
  }

  /** Splitting undoes joining for every list of plain names, with or without a leading slash. */
  lemma {:induction false} SplitJoined(names: seq<string>)
    requires |names| > 0
    requires forall i :: 0 <= i < |names| ==> 0 < |names[i]| < PATH_MAX && '/' !in names[i]
    ensures PathNames(JoinPath(names)) == names == PathNames("/" + JoinPath(names))
  {
    ComponentsJoined(names);
    assert ("/" + JoinPath(names))[1..] == JoinPath(names);
  }

  // --------------------------------------------------------------- the tree

  datatype Status = Done | InvalidKey | NotATree

  /** `cj_append_key` below one tree: missing trees are created on the way down, an existing final
      entry is kept, a key in the middle of the path is an error. */
  function Append(tree: map<string, Entry>, names: seq<string>, key: KeyConfig): (r: (Status, map<string, Entry>))
    requires |names| > 0
    decreases |names|
  {
    var name := names[0];
    if |names| == 1 then
      if name == [] then (InvalidKey, tree)
      else if name in tree then (Done, tree)
      else (Done, tree[name := Key(key)])
    else if name in tree && tree[name].Key? then (NotATree, tree)
    else
      var r := Append(if name in tree then tree[name].children else map[], names[1..], key);
      (r.0, tree[name := Tree(r.1)])
  }

  /** The entry at exactly this path. */
  function Walk(e: Option<Entry>, path: seq<string>): Option<Entry>
    decreases |path|
  {
    if path == [] then e
    else if e.Some? && e.value.Tree? && path[0] in e.value.children
    then Walk(Some(e.value.children[path[0]]), path[1..])
    else None
  }

  function KeyAt(tree: map<string, Entry>, path: seq<string>): Option<KeyConfig>
  {
    var e := Walk(Some(Tree(tree)), path);
    if e.Some? && e.value.Key? then Some(e.value.key) else None
  }

  predicate Exists(tree: map<string, Entry>, path: seq<string>)
  {
    Walk(Some(Tree(tree)), path).Some?
  }

  /** One step of the exact walk. */
  lemma {:induction false} WalkStep(tree: map<string, Entry>, path: seq<string>)
    requires path != []
    ensures path[0] !in tree ==> KeyAt(tree, path) == None && !Exists(tree, path)
    ensures path[0] in tree && |path| == 1 ==>
            Exists(tree, path) && KeyAt(tree, path) == (if tree[path[0]].Key? then Some(tree[path[0]].key) else None)
    ensures path[0] in tree && |path| > 1 && tree[path[0]].Key? ==> KeyAt(tree, path) == None && !Exists(tree, path)
    ensures path[0] in tree && |path| > 1 && tree[path[0]].Tree? ==>
            && KeyAt(tree, path) == KeyAt(tree[path[0]].children, path[1..])
            && Exists(tree, path) == Exists(tree[path[0]].children, path[1..])
  {
    if path[0] in tree {
      assert Walk(Some(Tree(tree)), path) == Walk(Some(tree[path[0]]), path[1..]);
      assert |path| == 1 ==> path[1..] == [];
    }
  }

  /** What appending one path does to the lookup of any other path `q`. */
  lemma {:induction false} AppendEffect(tree: map<string, Entry>, names: seq<string>, key: KeyConfig, q: seq<string>)
    requires |names| > 0 && q != []
    ensures var (status, after) := Append(tree, names, key);
            status == Done ==>
              && KeyAt(after, q) == (if q == names && !Exists(tree, names) then Some(key) else KeyAt(tree, q))
              && Exists(after, q) == (Exists(tree, q) || q <= names)
    decreases |names|
  {
    var (status, after) := Append(tree, names, key);
    WalkStep(tree, q);
    WalkStep(after, q);
    WalkStep(tree, names);
    if q[0] == names[0] && |q| > 1 && |names| > 1 && status == Done {
      var below := if q[0] in tree then tree[q[0]].children else map[];
      AppendEffect(below, names[1..], key, q[1..]);
      assert q == [q[0]] + q[1..] && names == [names[0]] + names[1..];
      WalkStep(map[], q[1..]);
      WalkStep(map[], names[1..]);
    }
  }

  /** A key is refused exactly for an empty last name or when a shorter configured path is in its way. */
  lemma {:induction false} AppendStatus(tree: map<string, Entry>, names: seq<string>, key: KeyConfig)
    requires |names| > 0
    ensures Append(tree, names, key).0 == NotATree <==> Blocked(tree, names)
    ensures Append(tree, names, key).0 == InvalidKey ==> names[|names| - 1] == []
    ensures Append(tree, names, key).0 == Done ==> names[|names| - 1] != []
    decreases |names|
  {
    if |names| > 1 {
      WalkStep(tree, names[..1]);
      if names[0] in tree && tree[names[0]].Key? {
        assert KeyAt(tree, names[..1]).Some?;
      } else {
        var below := if names[0] in tree then tree[names[0]].children else map[];
        AppendStatus(below, names[1..], key);
        forall n | 1 < n < |names|
          ensures KeyAt(tree, names[..n]) == KeyAt(below, names[1..][..n - 1])
        {
          WalkStep(tree, names[..n]);
          WalkStep(map[], names[1..][..n - 1]);
          assert names[..n][1..] == names[1..][..n - 1];
        }
        if Blocked(below, names[1..]) {
          var n :| 0 < n < |names[1..]| && KeyAt(below, names[1..][..n]).Some?;
          assert KeyAt(tree, names[..n + 1]).Some?;
        }
      }
    }
  }

  /** A configured key sits at a proper prefix of the path. */
  ghost predicate Blocked(tree: map<string, Entry>, names: seq<string>)
  {
    exists n :: 0 < n < |names| && KeyAt(tree, names[..n]).Some?
  }

  // -------------------------------------------------------- whole configuration

  datatype Item = Item(names: seq<string>, key: KeyConfig)

  /** All `Key` blocks of one URL, in order; the first refused key makes the block fail. */
  function Build(items: seq<Item>): (r: Option<map<string, Entry>>)
    requires forall i :: 0 <= i < |items| ==> |items[i].names| > 0
  {
    if items == [] then Some(map[])
    else
      var before := Build(items[..|items| - 1]);
      var item := items[|items| - 1];
      if before.None? then None
      else
        var (status, tree) := Append(before.value, item.names, item.key);
        if status == Done then Some(tree) else None
  }

  ghost predicate Named(items: seq<Item>)
  {
    forall i :: 0 <= i < |items| ==> |items[i].names| > 0 && items[i].names[|items[i].names| - 1] != []
  }

  /** No configured path leads through, or repeats, another one (unless it is the very same key). */
  ghost predicate Compatible(items: seq<Item>)
  {
    forall i, j :: 0 <= i < |items| && 0 <= j < |items| && items[i].names <= items[j].names ==> items[i] == items[j]
  }

  /** Only configured keys are ever found, and only at their own path. */
  lemma {:induction false} BuildSound(items: seq<Item>, q: seq<string>)
    requires Named(items) && Build(items).Some? && q != []
    ensures Exists(Build(items).value, q) <==> exists i :: 0 <= i < |items| && q <= items[i].names
    ensures KeyAt(Build(items).value, q).Some? ==>
            exists i :: 0 <= i < |items| && items[i] == Item(q, KeyAt(Build(items).value, q).value)
  {
    if items == [] {
      WalkStep(map[], q);
    } else {
      var n := |items| - 1;
      var before, last := items[..n], items[n];
      BuildSound(before, q);
      AppendEffect(Build(before).value, last.names, last.key, q);
      if i :| 0 <= i < n && q <= before[i].names { assert q <= items[i].names; }
      if KeyAt(Build(before).value, q).Some? {
        var i :| 0 <= i < n && before[i] == Item(q, KeyAt(Build(before).value, q).value);
        assert items[i] == before[i];
      }
    }
  }

  /** The last path of a compatible configuration is free: no key is in its way, and if it is already
      there it is the same key. */
  lemma {:induction false} LastIsFree(items: seq<Item>)
    requires items != [] && Named(items) && Compatible(items) && Build(items[..|items| - 1]).Some?
    ensures var tree, last := Build(items[..|items| - 1]).value, items[|items| - 1];
            && !Blocked(tree, last.names)
            && (Exists(tree, last.names) ==> exists i :: 0 <= i < |items| - 1 && items[i] == last)
  {
    hide KeyAt, Exists, Build, Append;
    var n := |items| - 1;
    var before, last := items[..n], items[n];
    var tree := Build(before).value;
    forall k | 0 < k < |last.names| ensures KeyAt(tree, last.names[..k]) == None
    {
      BuildSound(before, last.names[..k]);
      assert forall i :: 0 <= i < n ==> before[i] == items[i] && items[i].names != last.names[..k];
    }
    BuildSound(before, last.names);
    if Exists(tree, last.names) {
      var i :| 0 <= i < n && last.names <= before[i].names;
      assert items[i] == last;
    }
  }

  /** A compatible configuration is accepted and every configured path leads to its own key. */
  lemma {:induction false} BuildFinds(items: seq<Item>)
    requires Named(items) && Compatible(items)
    ensures Build(items).Some?
    ensures forall i :: 0 <= i < |items| ==> KeyAt(Build(items).value, items[i].names) == Some(items[i].key)
  {
    hide KeyAt, Exists, Append;
    if items != [] {
      var n := |items| - 1;
      var before, last := items[..n], items[n];
      BuildFinds(before);
      var tree := Build(before).value;
      LastIsFree(items);
      AppendStatus(tree, last.names, last.key);
      forall i | 0 <= i <= n ensures KeyAt(Build(items).value, items[i].names) == Some(items[i].key)
      {
        AppendEffect(tree, last.names, last.key, items[i].names);
        assert i < n ==> before[i] == items[i];
        if items[i].names == last.names && Exists(tree, last.names) {
          var k :| 0 <= k < n && items[k] == last;
          assert before[k] == last;
        }
      }
    }
  }

  /** The exact condition: the configuration is accepted with every path leading to its own key
      if and only if it is compatible. */
  lemma {:induction false} BuildComplete(items: seq<Item>)
    requires Named(items)
    ensures Compatible(items) <==>
            (Build(items).Some? &&
             forall i :: 0 <= i < |items| ==> KeyAt(Build(items).value, items[i].names) == Some(items[i].key))
  {
    if Compatible(items) {
      BuildFinds(items);
    } else if Build(items).Some? &&
              forall i :: 0 <= i < |items| ==> KeyAt(Build(items).value, items[i].names) == Some(items[i].key) {
      var i, j :| 0 <= i < |items| && 0 <= j < |items| && items[i].names <= items[j].names && items[i] != items[j];
      var tree := Build(items).value;
      assert items[i].names != items[j].names;
      KeyBlocks(Some(Tree(tree)), items[i].names, items[j].names);
      assert false;
    }
  }

  /** Nothing can be found below a key. */
  lemma {:induction false} KeyBlocks(e: Option<Entry>, p: seq<string>, q: seq<string>)
    requires p < q && Walk(e, p).Some? && Walk(e, p).value.Key?
    ensures Walk(e, q) == None
    decreases |p|
  {
    if p != [] {
      KeyBlocks(Some(e.value.children[p[0]]), p[1..], q[1..]);
    }
  }

  // --------------------------------------------------- together with the matcher

  ghost predicate NoWildcard(e: Option<Entry>)
  {
    forall q :: Walk(e, q + [CJ_ANY]) == None
  }

  lemma {:induction false} ResolveExact(e: Option<Entry>, path: seq<string>)
    requires NoWildcard(e)
    ensures Resolve(e, path) == Walk(e, path)
    decreases |path|
  {
    if path != [] {
      if e.Some? && e.value.Tree? {
        WalkStep(e.value.children, [] + [CJ_ANY]);
        assert Walk(e, [] + [CJ_ANY]) == None;
      }
      var next := Lookup(e, path[0]);
      if next.Some? {
        forall q ensures Walk(next, q + [CJ_ANY]) == None {
          var p := ([path[0]] + q) + [CJ_ANY];
          assert p[0] == path[0] && p[1..] == q + [CJ_ANY];
          assert Walk(e, p) == Walk(next, p[1..]);
        }
        ResolveExact(next, path[1..]);
      } else {
        NothingResolves(path[1..]);
      }
    }
  }

  lemma {:induction false} NothingResolves(path: seq<string>)
    ensures Resolve(None, path) == None
    decreases |path|
  {
    if path != [] { NothingResolves(path[1..]); }
  }

  /** One name of a pattern: the exact one where there is such an entry, else the wildcard where there is one. */
  ghost predicate Chosen(e: Option<Entry>, before: seq<string>, name: string, chosen: string)
  {
    var exact, any := Walk(e, before + [name]), Walk(e, before + [CJ_ANY]);
    chosen == if exact.None? && any.Some? then CJ_ANY else name
  }

  /** The pattern by which a path is matched, name by name. */
  ghost predicate Matches(e: Option<Entry>, path: seq<string>, pattern: seq<string>)
  {
    |pattern| == |path| && forall i :: 0 <= i < |path| ==> Chosen(e, pattern[..i], path[i], pattern[i])
  }

  lemma {:induction false} WalkFirst(e: Option<Entry>, name: string, rest: seq<string>)
    ensures Walk(e, [name] + rest) == Walk(Walk(e, [name]), rest)
  {
    assert ([name] + rest)[0] == name && ([name] + rest)[1..] == rest && [name][1..] == [];
    if !(e.Some? && e.value.Tree? && name in e.value.children) {
      assert Walk(None, rest) == if rest == [] then None else None;
    }
  }

  lemma {:induction false} LookupWalks(e: Option<Entry>, name: string)
    ensures var exact, any := Walk(e, [name]), Walk(e, [CJ_ANY]);
            Lookup(e, name) == if exact.Some? then exact else any
  {
    assert [name][1..] == [] && [CJ_ANY][1..] == [];
  }

  lemma {:induction false} ChosenBelow(e: Option<Entry>, first: string, before: seq<string>, name: string, chosen: string)
    requires Chosen(Walk(e, [first]), before, name, chosen)
    ensures Chosen(e, [first] + before, name, chosen)
  {
    hide Walk;
    assert ([first] + before) + [name] == [first] + (before + [name]);
    assert ([first] + before) + [CJ_ANY] == [first] + (before + [CJ_ANY]);
    WalkFirst(e, first, before + [name]);
    WalkFirst(e, first, before + [CJ_ANY]);
  }

  lemma {:induction false} MatchesCons(e: Option<Entry>, path: seq<string>, first: string, rest: seq<string>)
    requires path != [] && Chosen(e, [], path[0], first) && Matches(Walk(e, [first]), path[1..], rest)
    ensures Matches(e, path, [first] + rest)
  {
    hide Walk, Chosen;
    var pattern := [first] + rest;
    forall i | 0 <= i < |path| ensures Chosen(e, pattern[..i], path[i], pattern[i]) {
      if i == 0 {
        assert pattern[..0] == [];
      } else {
        assert pattern[..i] == [first] + rest[..i - 1] && path[1..][i - 1] == path[i];
        ChosenBelow(e, first, rest[..i - 1], path[i], rest[i - 1]);
      }
    }
  }

  /** For every tree and path the matcher is the exact walk along the one pattern that prefers the exact name at
      every step and falls back on the wildcard. */
  lemma {:induction false} ResolvePattern(e: Option<Entry>, path: seq<string>) returns (pattern: seq<string>)
    ensures Matches(e, path, pattern) && Resolve(e, path) == Walk(e, pattern)
    decreases |path|
  {
    hide Lookup, Walk;
    if path == [] {
      pattern := [];
      WalkNowhere(e);
    } else {
      var exact, any := Walk(e, [path[0]]), Walk(e, [CJ_ANY]);
      LookupWalks(e, path[0]);
      var first := if exact.None? && any.Some? then CJ_ANY else path[0];
      assert [] + [path[0]] == [path[0]] && [] + [CJ_ANY] == [CJ_ANY];
      assert Lookup(e, path[0]) == Walk(e, [first]);
      var rest := ResolvePattern(Lookup(e, path[0]), path[1..]);
      pattern := [first] + rest;
      WalkFirst(e, first, rest);
      MatchesCons(e, path, first, rest);
    }
  }

  lemma {:induction false} WalkNowhere(e: Option<Entry>)
    ensures Walk(e, []) == e
  {
  }

  /** An entry at exactly the path wins over every wildcard. */
  lemma {:induction false} ExactWins(e: Option<Entry>, path: seq<string>)
    requires Walk(e, path).Some?
    ensures Resolve(e, path) == Walk(e, path)
    decreases |path|
  {
    if path != [] {
      LookupWalks(e, path[0]);
      assert [path[0]][1..] == [];
      ExactWins(Lookup(e, path[0]), path[1..]);
    }
  }

  /** What a poll submits for one scalar, without the matcher: the key at its pattern, if there is one. */
  lemma {:induction false} OfferByPattern(parse: Parser, e: Option<Entry>, s: Scalar) returns (pattern: seq<string>)
    ensures Matches(e, s.path, pattern)
    ensures var target := Walk(e, pattern);
            Offer(parse, e, [], s) ==
              if target.Some? && target.value.Key? && parse(target.value.key.typeName, s.text).Some?
              then [Submission(target.value.key, parse(target.value.key.typeName, s.text).value, StoredNames(s.path))]
              else []
  {
    hide Walk, Resolve, Matches;
    pattern := ResolvePattern(e, s.path);
    assert [] + StoredNames(s.path) == StoredNames(s.path);
  }

  ghost predicate WildcardFree(items: seq<Item>)
  {
    forall i :: 0 <= i < |items| ==> CJ_ANY !in items[i].names
  }

  /** A wildcard-free, compatible configuration offers a scalar for parsing exactly when its document
      path is configured, and then under that path's key. */
  lemma {:induction false} ConfiguredExactly(items: seq<Item>, path: seq<string>, key: KeyConfig)
    requires Named(items) && Compatible(items) && WildcardFree(items)
    ensures Build(items).Some?
    ensures Resolve(Some(Tree(Build(items).value)), path) == Some(Key(key)) <==> Item(path, key) in items
  {
    BuildFinds(items);
    if path != [] {
      var root := Some(Tree(Build(items).value));
      forall q ensures Walk(root, q + [CJ_ANY]) == None {
        BuildSound(items, q + [CJ_ANY]);
        assert forall i :: 0 <= i < |items| && q + [CJ_ANY] <= items[i].names ==> items[i].names[|q|] == CJ_ANY;
      }
      ResolveExact(root, path);
      BuildSound(items, path);
    }
  }

  /** The configured key of a path, by linear search over the configuration. */
  function KeyFor(items: seq<Item>, path: seq<string>): (r: Option<KeyConfig>)
    ensures r.Some? ==> Item(path, r.value) in items
    ensures r.None? ==> forall k :: Item(path, k) !in items
  {
    if items == [] then None
    else if items[0].names == path then Some(items[0].key)
    else KeyFor(items[1..], path)
  }

  /** The submissions a wildcard-free configuration asks for, straight from its list of keys. */
  function Wanted(parse: Parser, items: seq<Item>, scalars: seq<Scalar>): seq<Submission>
  {
    if scalars == [] then []
    else
      var key := KeyFor(items, scalars[0].path);
      var v := if key.Some? then parse(key.value.typeName, scalars[0].text) else None;
      (if v.Some? then [Submission(key.value, v.value, StoredNames(scalars[0].path))] else [])
        + Wanted(parse, items, scalars[1..])
  }

  lemma {:induction false} OffersWanted(parse: Parser, items: seq<Item>, scalars: seq<Scalar>)
    requires Named(items) && Compatible(items) && WildcardFree(items) && Build(items).Some?
    ensures Offers(parse, Some(Tree(Build(items).value)), [], scalars) == Wanted(parse, items, scalars)
  {
    if scalars != [] {
      var s := scalars[0];
      var target := Resolve(Some(Tree(Build(items).value)), s.path);
      var key := KeyFor(items, s.path);
      if target.Some? && target.value.Key? { ConfiguredExactly(items, s.path, target.value.key); }
      if key.Some? { ConfiguredExactly(items, s.path, key.value); }
      assert [] + StoredNames(s.path) == StoredNames(s.path);
      OffersWanted(parse, items, scalars[1..]);
    }
  }

  /** End to end: configure the keys, then feed any document; exactly the configured scalars come out. */
  lemma {:induction false} PollSubmitsConfigured(parse: Parser, items: seq<Item>, max: nat, out: seq<Submission>, j: Json)
    requires Named(items) && Compatible(items) && WildcardFree(items) && max > 0
    ensures Build(items).Some?
    ensures Run(parse, Fresh(Build(items).value, max, out), Events(j)).m.out
         == out + Wanted(parse, items, ScalarsOf(j, 0, max).scalars)
  {
    BuildFinds(items);
    ReadSubmits(parse, Build(items).value, max, out, j);
    OffersWanted(parse, items, ScalarsOf(j, 0, max).scalars);
  }

  /** The `Key` blocks of a configuration with their paths taken apart. */
  function ItemsOf(keys: seq<KeyConfig>): (r: seq<Item>)
    ensures |r| == |keys|
  {
    seq(|keys|, i requires 0 <= i < |keys| => Item(PathNames(keys[i].path), keys[i]))
  }

  predicate PlainName(name: string)
  {
    0 < |name| < PATH_MAX && '/' !in name && name != CJ_ANY
  }

  /** The path strings are these lists of plain names, with or without a leading slash. */
  ghost predicate Spells(keys: seq<KeyConfig>, paths: seq<seq<string>>)
  {
    |keys| == |paths| && forall i :: 0 <= i < |keys| ==>
      && |paths[i]| > 0 && (forall k :: 0 <= k < |paths[i]| ==> PlainName(paths[i][k]))
      && (keys[i].path == JoinPath(paths[i]) || keys[i].path == "/" + JoinPath(paths[i]))
  }

  function Zip(keys: seq<KeyConfig>, paths: seq<seq<string>>): (r: seq<Item>)
    requires |keys| == |paths|
  {
    seq(|keys|, i requires 0 <= i < |keys| => Item(paths[i], keys[i]))
  }

  lemma {:induction false} PathsTakenApart(keys: seq<KeyConfig>, paths: seq<seq<string>>)
    requires Spells(keys, paths)
    ensures ItemsOf(keys) == Zip(keys, paths) && Named(Zip(keys, paths)) && WildcardFree(Zip(keys, paths))
  {
    hide PathNames, JoinPath;
    forall i | 0 <= i < |keys| ensures PathNames(keys[i].path) == paths[i] {
      SplitJoined(paths[i]);
    }
    forall i | 0 <= i < |keys| ensures CJ_ANY !in paths[i] {
      assert forall k :: 0 <= k < |paths[i]| ==> PlainName(paths[i][k]);
    }
  }

  /** From the configured path strings to the submissions of a poll: if no path repeats or passes through another
      one, every document submits exactly the scalars at the configured paths. */
  lemma {:induction false} PollSubmitsPaths(parse: Parser, keys: seq<KeyConfig>, paths: seq<seq<string>>, max: nat,
                         out: seq<Submission>, j: Json)
    requires Spells(keys, paths) && max > 0
    requires forall a, b :: 0 <= a < |paths| && 0 <= b < |paths| && paths[a] <= paths[b] ==> a == b
    ensures forall i :: 0 <= i < |keys| ==> |ItemsOf(keys)[i].names| > 0
    ensures Build(ItemsOf(keys)).Some?
    ensures Run(parse, Fresh(Build(ItemsOf(keys)).value, max, out), Events(j)).m.out
         == out + Wanted(parse, Zip(keys, paths), ScalarsOf(j, 0, max).scalars)
  {
    hide Run, Events, ScalarsOf, Wanted, Build, PathNames, JoinPath;
    PathsTakenApart(keys, paths);
    assert Compatible(Zip(keys, paths));
    PollSubmitsConfigured(parse, Zip(keys, paths), max, out, j);
  }
}

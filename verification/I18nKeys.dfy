/** The locale parity script: flattening of JSON trees to dotted keys, and the exit status of the comparison. */
module I18nKeys {
  import opened Text

  datatype Member = Member(key: string, value: Json)

  /** A parsed JSON value; an object lists its members in enumeration order. */
  datatype Json =
    | Null
    | Bool(truth: bool)
    | Number(amount: real)
    | Str(text: string)
    | List(items: seq<Json>)
    | Object(members: seq<Member>)

  /** Object.entries: the members of an object, the indexed elements of an array, the characters of a string. */
  function Entries(json: Json): seq<Member> {
    match json
    case Object(members) => members
    case List(items) => seq(|items|, i requires 0 <= i < |items| => Member(Decimal(i), items[i]))
    case Str(text) => seq(|text|, i requires 0 <= i < |text| => Member(Decimal(i), Str([text[i]])))
    case _ => []
  }

  predicate Truthy(json: Json) {
    match json
    case Null => false
    case Bool(truth) => truth
    case Number(amount) => amount != 0.0
    case Str(text) => text != ""
    case _ => true
  }

  // ---------------------------------------------------------------- flattening

  /** The key behind a dot and the prefix; the empty prefix counts as none. */
  function FullKey(prefix: string, key: string): string {
    if prefix != "" then prefix + "." + key else key
  }

  function FlattenMember(member: Member, prefix: string): seq<string>
    decreases member, 0
  {
    var fullKey := FullKey(prefix, member.key);
    if member.value.Object? then Flatten(member.value.members, fullKey) else [fullKey]
  }

  function Flatten(members: seq<Member>, prefix: string): seq<string>
    decreases members, 1
  {
    if members == [] then [] else FlattenMember(members[0], prefix) + Flatten(members[1..], prefix)
  }

  lemma FlattenFrom(members: seq<Member>, i: nat, prefix: string)
    requires i < |members|
    ensures Flatten(members[i..], prefix) == FlattenMember(members[i], prefix) + Flatten(members[i + 1..], prefix)
  {
    hide FlattenMember;
    assert members[i..][1..] == members[i + 1..];
  }

  method FlattenKeys(members: seq<Member>, prefix: string) returns (keys: seq<string>)
    ensures keys == Flatten(members, prefix)
    decreases members
  {
    hide Flatten;
    keys := [];
    for i := 0 to |members|
      invariant keys + Flatten(members[i..], prefix) == Flatten(members, prefix)
    {
      var k, v := members[i].key, members[i].value;
      var fullKey := if prefix != "" then prefix + "." + k else k;
      var found := [fullKey];
      if v.Object? {
        found := FlattenKeys(v.members, fullKey);
      }
      FlattenFrom(members, i, prefix);
      assert found == FlattenMember(members[i], prefix);
      keys := keys + found;
    }
    FlattenNothing(prefix);
    assert members[|members|..] == [];
  }

  lemma FlattenNothing(prefix: string)
    ensures Flatten([], prefix) == []
  {
  }

  // ---------------------------------------------------------------- leaf paths

  /** The path leads through objects to a value that is not an object. */
  ghost predicate LeafAt(members: seq<Member>, path: seq<string>)
    decreases |path|, 0
  {
    && path != []
    && exists i | 0 <= i < |members| :: members[i].key == path[0] && LeafBelow(members[i].value, path[1..])
  }

  ghost predicate LeafBelow(value: Json, path: seq<string>)
    decreases |path|, 1
  {
    if value.Object? then LeafAt(value.members, path) else path == []
  }

  /** Keys of an object are distinct; here they are also non-empty and without dots, at every depth. */
  ghost predicate Plain(members: seq<Member>)
    decreases members
  {
    && (forall i | 0 <= i < |members| :: PlainKey(members[i].key))
    && (forall i, j | 0 <= i < j < |members| :: members[i].key != members[j].key)
    && (forall i | 0 <= i < |members| && members[i].value.Object? :: Plain(members[i].value.members))
  }

  predicate PlainKey(key: string) {
    key != "" && '.' !in key
  }

  ghost predicate PlainPath(path: seq<string>) {
    path != [] && forall i | 0 <= i < |path| :: PlainKey(path[i])
  }

  /** The leaf paths in enumeration order. */
  function Paths(members: seq<Member>): (r: seq<seq<string>>)
    ensures forall i | 0 <= i < |r| :: r[i] != []
    decreases members, 1
  {
    if members == [] then [] else MemberPaths(members[0]) + Paths(members[1..])
  }

  function MemberPaths(member: Member): (r: seq<seq<string>>)
    ensures forall i | 0 <= i < |r| :: r[i] != [] && r[i][0] == member.key
    decreases member, 0
  {
    if member.value.Object? then Under(member.key, Paths(member.value.members)) else [[member.key]]
  }

  function Under(key: string, paths: seq<seq<string>>): (r: seq<seq<string>>)
    ensures |r| == |paths|
  {
    seq(|paths|, i requires 0 <= i < |paths| => [key] + paths[i])
  }

  function Dotted(prefix: string, paths: seq<seq<string>>): (r: seq<string>)
    ensures |r| == |paths|
  {
    seq(|paths|, i requires 0 <= i < |paths| => FullKey(prefix, Join(paths[i], ".")))
  }

  lemma PlainTail(members: seq<Member>)
    requires Plain(members) && members != []
    ensures Plain(members[1..])
  {
    assert forall i | 0 <= i < |members[1..]| :: members[1..][i] == members[i + 1];
  }

  lemma {:induction false} PathsAreLeaves(members: seq<Member>, path: seq<string>)
    requires Plain(members)
    ensures path in Paths(members) <==> LeafAt(members, path)
    ensures path in Paths(members) ==> PlainPath(path)
    decreases members, 1
  {
    if members == [] {
    } else {
      PlainTail(members);
      PathsAreLeaves(members[1..], path);
      MemberPathsAreLeaves(members[0], path);
      LeafFirstOrRest(members, path);
    }
  }

  lemma LeafFirstOrRest(members: seq<Member>, path: seq<string>)
    requires members != []
    ensures LeafAt(members, path) <==>
            (path != [] && path[0] == members[0].key && LeafBelow(members[0].value, path[1..])) || LeafAt(members[1..], path)
  {
    hide LeafBelow;
    if LeafAt(members[1..], path) {
      var i :| 0 <= i < |members[1..]| && members[1..][i].key == path[0] && LeafBelow(members[1..][i].value, path[1..]);
      assert members[i + 1] == members[1..][i];
    }
    if LeafAt(members, path) {
      var i :| 0 <= i < |members| && members[i].key == path[0] && LeafBelow(members[i].value, path[1..]);
      assert i > 0 ==> members[1..][i - 1] == members[i];
    }
  }

  lemma {:induction false} MemberPathsAreLeaves(member: Member, path: seq<string>)
    requires PlainKey(member.key) && (member.value.Object? ==> Plain(member.value.members))
    ensures path in MemberPaths(member) <==> path != [] && path[0] == member.key && LeafBelow(member.value, path[1..])
    ensures path in MemberPaths(member) ==> PlainPath(path)
    decreases member, 0
  {
    hide Plain, Paths;
    if path != [] && path[0] == member.key {
      assert path == [member.key] + path[1..];
      if member.value.Object? {
        var below := Paths(member.value.members);
        PathsAreLeaves(member.value.members, path[1..]);
        InUnder(member.key, below, path);
        if path[1..] in below {
          assert forall i | 0 <= i < |path| :: PlainKey(path[i]) by {
            assert forall i | 0 < i < |path| :: path[i] == path[1..][i - 1];
          }
        }
      } else {
        assert path[1..] == [] <==> path == [member.key];
      }
    }
  }

  lemma InUnder(key: string, paths: seq<seq<string>>, path: seq<string>)
    requires path != [] && path[0] == key
    ensures path in Under(key, paths) <==> path[1..] in paths
  {
    if path in Under(key, paths) {
      var i :| 0 <= i < |paths| && Under(key, paths)[i] == path;
      assert paths[i] == path[1..];
    }
    if path[1..] in paths {
      var i :| 0 <= i < |paths| && paths[i] == path[1..];
      assert Under(key, paths)[i] == path;
    }
  }

  ghost predicate NoRepeats<T(!new)>(s: seq<T>) {
    forall i, j | 0 <= i < j < |s| :: s[i] != s[j]
  }

  lemma {:induction false} PathsDiffer(members: seq<Member>)
    requires Plain(members)
    ensures NoRepeats(Paths(members))
    decreases members
  {
    if members == [] {
    } else {
      PlainTail(members);
      PathsDiffer(members[1..]);
      if members[0].value.Object? {
        PathsDiffer(members[0].value.members);
        assert forall i | 0 <= i < |MemberPaths(members[0])| ::
            MemberPaths(members[0])[i][1..] == Paths(members[0].value.members)[i];
      }
      forall path | path in Paths(members[1..]) ensures path[0] != members[0].key {
        PathsAreLeaves(members[1..], path);
      }
    }
  }

  // ---------------------------------------------------------------- keys

  /** The prefix accumulator prints every leaf path, joined with dots. */
  lemma {:induction false} FlattenPrintsPaths(members: seq<Member>, prefix: string)
    requires Plain(members)
    ensures Flatten(members, prefix) == Dotted(prefix, Paths(members))
    decreases members, 1
  {
    hide Dotted, FlattenMember, MemberPaths;
    if members == [] {
      DottedAppend(prefix, [], []);
    } else {
      PlainTail(members);
      PlainHead(members);
      hide Plain;
      FlattenPrintsPaths(members[1..], prefix);
      FlattenMemberPrintsPaths(members[0], prefix);
      DottedAppend(prefix, MemberPaths(members[0]), Paths(members[1..]));
    }
  }

  lemma PlainHead(members: seq<Member>)
    requires Plain(members) && members != []
    ensures PlainKey(members[0].key) && (members[0].value.Object? ==> Plain(members[0].value.members))
  {
  }

  lemma DottedAppend(prefix: string, a: seq<seq<string>>, b: seq<seq<string>>)
    ensures Dotted(prefix, a + b) == Dotted(prefix, a) + Dotted(prefix, b)
    ensures Dotted(prefix, []) == []
  {
    hide Join, FullKey;
  }

  lemma {:induction false} FlattenMemberPrintsPaths(member: Member, prefix: string)
    requires PlainKey(member.key) && (member.value.Object? ==> Plain(member.value.members))
    ensures FlattenMember(member, prefix) == Dotted(prefix, MemberPaths(member))
    decreases member, 0
  {
    hide Plain, Flatten, Paths;
    if member.value.Object? {
      var fullKey := FullKey(prefix, member.key);
      var below := Paths(member.value.members);
      FlattenPrintsPaths(member.value.members, fullKey);
      forall i | 0 <= i < |below|
        ensures Dotted(fullKey, below)[i] == Dotted(prefix, MemberPaths(member))[i]
      {
        var path := [member.key] + below[i];
        assert path[1..] == below[i];
        assert Join(path, ".") == member.key + "." + Join(below[i], ".");
        if prefix != "" {
          assert prefix + "." + (member.key + "." + Join(below[i], ".")) == fullKey + "." + Join(below[i], ".");
        }
      }
    }
  }

  /** A path of plain keys can be read off its dotted form. */
  lemma {:induction false} SplitPlainPath(path: seq<string>)
    requires PlainPath(path)
    ensures Split(Join(path, "."), '.') == path
    decreases |path|
  {
    if |path| == 1 {
      SplitWhole(path[0], '.');
    } else {
      SplitHead(path[0], Join(path[1..], "."), '.');
      SplitPlainPath(path[1..]);
      assert [path[0]] + path[1..] == path;
    }
  }

  /** Every leaf path is listed exactly once, and nothing else is. */
  lemma KeysAreLeafPaths(members: seq<Member>)
    requires Plain(members)
    ensures NoRepeats(Flatten(members, ""))
    ensures forall key :: key in Flatten(members, "") <==> LeafAt(members, Split(key, '.'))
  {
    hide Plain, Flatten, Paths, LeafAt, Split, Join;
    var paths := Paths(members);
    var keys := Flatten(members, "");
    FlattenPrintsPaths(members, "");
    PathsDiffer(members);
    forall i | 0 <= i < |paths|
      ensures keys[i] == Join(paths[i], ".") && Split(keys[i], '.') == paths[i] && LeafAt(members, paths[i])
    {
      PathsAreLeaves(members, paths[i]);
      SplitPlainPath(paths[i]);
    }
    forall key | LeafAt(members, Split(key, '.')) ensures key in keys {
      var path := Split(key, '.');
      PathsAreLeaves(members, path);
      JoinSplit(key, '.');
      var i :| 0 <= i < |paths| && paths[i] == path;
      assert keys[i] == key;
    }
  }

  // ---------------------------------------------------------------- shapes

  /** What is left of an object when only its non-empty branching matters. */
  datatype Shape = Leaf | Node(branches: map<string, Shape>)

  const NOTHING := Node(map[])

  /** Objects without leaves are pruned away, at every depth. */
  function Prune(members: seq<Member>): (r: Shape)
    ensures r.Node?
    decreases members
  {
    if members == [] then NOTHING
    else
      var rest := Prune(members[1..]);
      var value := members[0].value;
      var shape := if value.Object? then Prune(value.members) else Leaf;
      if shape == NOTHING then rest else Node(rest.branches[members[0].key := shape])
  }

  ghost predicate ShapeLeaf(shape: Shape, path: seq<string>)
    decreases |path|
  {
    match shape
    case Leaf => path == []
    case Node(branches) => path != [] && path[0] in branches && ShapeLeaf(branches[path[0]], path[1..])
  }

  /** Every branch leads to a leaf. */
  ghost predicate Lean(shape: Shape) {
    shape.Node? ==> forall key | key in shape.branches :: shape.branches[key] != NOTHING && Lean(shape.branches[key])
  }

  lemma {:induction false} PruneIsLean(members: seq<Member>)
    ensures Lean(Prune(members))
    decreases members
  {
    if members == [] {
    } else {
      PruneIsLean(members[1..]);
      if members[0].value.Object? {
        PruneIsLean(members[0].value.members);
      }
    }
  }

  lemma {:induction false} PruneKeys(members: seq<Member>, key: string)
    requires forall i | 0 <= i < |members| :: members[i].key != key
    ensures key !in Prune(members).branches
  {
    if members == [] {
    } else {
      assert forall i | 0 <= i < |members[1..]| :: members[1..][i] == members[i + 1];
      PruneKeys(members[1..], key);
    }
  }

  /** Pruning keeps exactly the leaf paths. */
  lemma {:induction false} PruneKeepsLeaves(members: seq<Member>, path: seq<string>)
    requires Plain(members)
    ensures LeafAt(members, path) <==> ShapeLeaf(Prune(members), path)
    decreases members
  {
    hide LeafAt;
    if members == [] {
      NoLeaf(path);
    } else {
      PlainTail(members);
      PruneKeepsLeaves(members[1..], path);
      LeafFirstOrRest(members, path);
      if path != [] && path[0] == members[0].key {
        var value := members[0].value;
        assert forall i | 0 <= i < |members[1..]| :: members[1..][i] == members[i + 1];
        PruneKeys(members[1..], path[0]);
        if value.Object? {
          PruneKeepsLeaves(value.members, path[1..]);
        }
      }
    }
  }

  lemma NoLeaf(path: seq<string>)
    ensures !LeafAt([], path)
  {
  }

  lemma {:induction false} LeanHasLeaf(shape: Shape) returns (path: seq<string>)
    requires Lean(shape) && shape != NOTHING
    ensures ShapeLeaf(shape, path)
    decreases shape
  {
    match shape
    case Leaf => path := [];
    case Node(branches) =>
      var key :| key in branches;
      var below := LeanHasLeaf(branches[key]);
      path := [key] + below;
      assert path[1..] == below;
  }

  /** Two lean shapes with the same leaf paths are the same shape. */
  lemma {:induction false} SameLeavesSameShape(a: Shape, b: Shape)
    requires Lean(a) && Lean(b)
    requires forall path :: ShapeLeaf(a, path) <==> ShapeLeaf(b, path)
    ensures a == b
    decreases a
  {
    assert ShapeLeaf(a, []) <==> a.Leaf?;
    assert ShapeLeaf(b, []) <==> b.Leaf?;
    if a.Node? {
      BranchesIncluded(a, b);
      BranchesIncluded(b, a);
      forall key | key in a.branches ensures a.branches[key] == b.branches[key] {
        forall path ensures ShapeLeaf(a.branches[key], path) <==> ShapeLeaf(b.branches[key], path) {
          assert ShapeLeaf(a, [key] + path) <==> ShapeLeaf(b, [key] + path);
          assert ([key] + path)[1..] == path;
        }
        SameLeavesSameShape(a.branches[key], b.branches[key]);
      }
    }
  }

  lemma BranchesIncluded(a: Shape, b: Shape)
    requires a.Node? && b.Node? && Lean(a)
    requires forall path | ShapeLeaf(a, path) :: ShapeLeaf(b, path)
    ensures a.branches.Keys <= b.branches.Keys
  {
    hide ShapeLeaf;
    forall key | key in a.branches ensures key in b.branches {
      var path := LeafUnder(a, key);
      assert ShapeLeaf(b, path);
      FirstStep(b, path);
    }
  }

  lemma LeafUnder(shape: Shape, key: string) returns (path: seq<string>)
    requires shape.Node? && Lean(shape) && key in shape.branches
    ensures path != [] && path[0] == key && ShapeLeaf(shape, path)
  {
    var below := LeanHasLeaf(shape.branches[key]);
    path := [key] + below;
    assert path[1..] == below;
  }

  lemma FirstStep(shape: Shape, path: seq<string>)
    requires shape.Node? && ShapeLeaf(shape, path) && path != []
    ensures path[0] in shape.branches
  {
  }

  function KeySet(members: seq<Member>): set<string> {
    set key | key in Flatten(members, "")
  }

  /** Two trees have the same keys exactly when they have the same shape after pruning empty objects. */
  lemma SameKeysSameShape(a: seq<Member>, b: seq<Member>)
    requires Plain(a) && Plain(b)
    ensures KeySet(a) == KeySet(b) <==> Prune(a) == Prune(b)
  {
    hide Plain, Flatten, Prune, LeafAt, ShapeLeaf, Split, Join;
    KeysAreLeafPaths(a);
    KeysAreLeafPaths(b);
    if Prune(a) == Prune(b) {
      forall key ensures key in KeySet(a) <==> key in KeySet(b) {
        PruneKeepsLeaves(a, Split(key, '.'));
        PruneKeepsLeaves(b, Split(key, '.'));
      }
    }
    if KeySet(a) == KeySet(b) {
      forall path ensures ShapeLeaf(Prune(a), path) <==> ShapeLeaf(Prune(b), path) {
        LeafInKeySet(a, path);
        LeafInKeySet(b, path);
        PruneKeepsLeaves(a, path);
        PruneKeepsLeaves(b, path);
      }
      PruneIsLean(a);
      PruneIsLean(b);
      SameLeavesSameShape(Prune(a), Prune(b));
    }
  }

  lemma LeafInKeySet(members: seq<Member>, path: seq<string>)
    requires Plain(members)
    ensures LeafAt(members, path) <==> PlainPath(path) && Join(path, ".") in KeySet(members)
  {
    hide Plain, Flatten, Paths, LeafAt, Split, Join;
    PathsAreLeaves(members, path);
    KeysAreLeafPaths(members);
    if PlainPath(path) {
      SplitPlainPath(path);
    }
  }

  /** Without the restriction on keys, different trees can have the same keys: a dot or an empty key is enough. */
  lemma UnplainKeysCollide()
    ensures
      var dotted := [Member("a.b", Null)];
      var nested := [Member("a", Object([Member("b", Null)]))];
      KeySet(dotted) == KeySet(nested) && Prune(dotted) != Prune(nested)
    ensures
      var flat := [Member("a", Null)];
      var nested := [Member("", Object([Member("a", Null)]))];
      KeySet(flat) == KeySet(nested) && Prune(flat) != Prune(nested)
  {
    var b := Member("b", Null);
    var a := Member("a", Null);
    FlattenOne(Member("a.b", Null), "");
    FlattenOne(b, "a");
    FlattenOne(Member("a", Object([b])), "");
    FlattenOne(a, "");
    FlattenOne(Member("", Object([a])), "");
    assert "a" + "." + "b" == "a.b";
    PruneOne(Member("a.b", Null));
    PruneOne(b);
    PruneOne(Member("a", Object([b])));
    PruneOne(a);
    PruneOne(Member("", Object([a])));
    hide Flatten, Prune;
    var dotted := Prune([Member("a.b", Null)]);
    var nested := Prune([Member("a", Object([b]))]);
    assert "a.b" in dotted.branches && "a.b" !in nested.branches;
    assert Prune([a]).branches["a"] == Leaf;
    assert "" in Prune([Member("", Object([a]))]).branches;
  }

  lemma FlattenOne(member: Member, prefix: string)
    ensures Flatten([member], prefix) == FlattenMember(member, prefix)
  {
    hide FlattenMember;
    assert [member][1..] == [];
  }

  lemma PruneOne(member: Member)
    ensures Prune([member]) ==
      var shape := if member.value.Object? then Prune(member.value.members) else Leaf;
      if shape == NOTHING then NOTHING else Node(map[member.key := shape])
  {
    assert [member][1..] == [];
  }

  // ---------------------------------------------------------------- the script

  datatype Locale = Vi | En | Zh

  const LOCALES := [Vi, En, Zh]

  datatype LocaleFile = Unparsable | Parsed(data: Json)

  /** The files of one locale folder; a locale without an entry has no file. */
  type Folder = map<Locale, LocaleFile>

  predicate Readable(folder: Folder, locale: Locale) {
    locale in folder && folder[locale].Parsed?
  }

  function Data(folder: Folder, locale: Locale): Json {
    if Readable(folder, locale) then folder[locale].data else Null
  }

  function Keys(folder: Folder, locale: Locale): set<string> {
    KeySet(Entries(Data(folder, locale)))
  }

  function Unreadable(folder: Folder, locales: seq<Locale>): nat {
    if locales == [] then 0
    else (if Readable(folder, locales[0]) then 0 else 1) + Unreadable(folder, locales[1..])
  }

  predicate Compared(folder: Folder, locale: Locale) {
    Truthy(Data(folder, Vi)) && Truthy(Data(folder, locale))
  }

  function Missing(folder: Folder, locale: Locale): nat {
    if Compared(folder, locale) then |Keys(folder, Vi) - Keys(folder, locale)| else 0
  }

  function Extra(folder: Folder, locale: Locale): nat {
    if Compared(folder, locale) then |Keys(folder, locale) - Keys(folder, Vi)| else 0
  }

  function FolderMissing(folder: Folder): nat {
    Unreadable(folder, LOCALES) + Missing(folder, En) + Missing(folder, Zh)
  }

  function FolderExtra(folder: Folder): nat {
    Extra(folder, En) + Extra(folder, Zh)
  }

  function TotalMissing(folders: seq<Folder>): nat {
    if folders == [] then 0 else FolderMissing(folders[0]) + TotalMissing(folders[1..])
  }

  function TotalExtra(folders: seq<Folder>): nat {
    if folders == [] then 0 else FolderExtra(folders[0]) + TotalExtra(folders[1..])
  }

  ghost function Position(locale: Locale): (i: nat)
    ensures i < |LOCALES| && LOCALES[i] == locale
  {
    match locale
    case Vi => 0
    case En => 1
    case Zh => 2
  }

  method LoadLocales(folder: Folder) returns (localeData: map<Locale, Json>, totalMissing: nat)
    ensures forall locale :: locale in localeData && localeData[locale] == Data(folder, locale)
    ensures totalMissing == Unreadable(folder, LOCALES)
  {
    localeData, totalMissing := map[], 0;
    for i := 0 to |LOCALES|
      invariant forall j | 0 <= j < i :: LOCALES[j] in localeData && localeData[LOCALES[j]] == Data(folder, LOCALES[j])
      invariant totalMissing + Unreadable(folder, LOCALES[i..]) == Unreadable(folder, LOCALES)
    {
      var locale := LOCALES[i];
      assert LOCALES[i..][1..] == LOCALES[i + 1..];
      if locale !in folder {
        totalMissing := totalMissing + 1;
        localeData := localeData[locale := Null];
        continue;
      }
      match folder[locale]
      case Parsed(data) =>
        localeData := localeData[locale := data];
      case Unparsable =>
        totalMissing := totalMissing + 1;
        localeData := localeData[locale := Null];
    }
    forall locale ensures locale in localeData && localeData[locale] == Data(folder, locale) {
      var i := Position(locale);
    }
  }

  method CollectKeys(localeData: map<Locale, Json>) returns (keySets: map<Locale, set<string>>)
    requires forall locale: Locale :: locale in localeData
    ensures forall locale: Locale ::
        if Truthy(localeData[locale]) then locale in keySets && keySets[locale] == KeySet(Entries(localeData[locale]))
        else locale !in keySets
  {
    hide Flatten, Entries, Truthy;
    keySets := map[];
    for i := 0 to |LOCALES|
      invariant forall j | i <= j < |LOCALES| :: LOCALES[j] !in keySets
      invariant forall j | 0 <= j < i ::
          if Truthy(localeData[LOCALES[j]])
          then LOCALES[j] in keySets && keySets[LOCALES[j]] == KeySet(Entries(localeData[LOCALES[j]]))
          else LOCALES[j] !in keySets
    {
      var locale := LOCALES[i];
      if Truthy(localeData[locale]) {
        var keys := FlattenKeys(Entries(localeData[locale]), "");
        keySets := keySets[locale := set key | key in keys];
      }
    }
    forall locale: Locale
      ensures if Truthy(localeData[locale]) then locale in keySets && keySets[locale] == KeySet(Entries(localeData[locale]))
              else locale !in keySets
    {
      var i := Position(locale);
    }
  }

  method CheckFolder(folder: Folder) returns (totalMissing: nat, totalExtra: nat)
    ensures totalMissing == FolderMissing(folder) && totalExtra == FolderExtra(folder)
  {
    hide KeySet, Entries, Truthy, Unreadable;
    totalExtra := 0;
    var localeData: map<Locale, Json>;
    localeData, totalMissing := LoadLocales(folder);
    var keySets := CollectKeys(localeData);
    if Vi !in keySets {
      return;
    }
    var reference := keySets[Vi];
    var others := [En, Zh];
    for i := 0 to 2
      invariant totalMissing == Unreadable(folder, LOCALES)
                  + (if i > 0 then Missing(folder, En) else 0) + (if i > 1 then Missing(folder, Zh) else 0)
      invariant totalExtra == (if i > 0 then Extra(folder, En) else 0) + (if i > 1 then Extra(folder, Zh) else 0)
    {
      var locale := others[i];
      if locale !in keySets {
        continue;
      }
      var target := keySets[locale];
      var missing := set k | k in reference && k !in target;
      var extra := set k | k in target && k !in reference;
      assert missing == reference - target && extra == target - reference;
      totalMissing := totalMissing + |missing|;
      totalExtra := totalExtra + |extra|;
    }
  }

  /** All three files can be read, and every non-empty one agrees with a non-empty vi on the keys. */
  ghost predicate InParity(folder: Folder) {
    && Readable(folder, Vi) && Readable(folder, En) && Readable(folder, Zh)
    && (Compared(folder, En) ==> Keys(folder, En) == Keys(folder, Vi))
    && (Compared(folder, Zh) ==> Keys(folder, Zh) == Keys(folder, Vi))
  }

  lemma NothingCounted(folder: Folder)
    ensures FolderMissing(folder) == 0 && FolderExtra(folder) == 0 <==> InParity(folder)
  {
    hide KeySet, Entries, Truthy;
    UnreadableIsZero(folder);
    DifferencesEmpty(Keys(folder, Vi), Keys(folder, En));
    DifferencesEmpty(Keys(folder, Vi), Keys(folder, Zh));
  }

  lemma UnreadableIsZero(folder: Folder)
    ensures Unreadable(folder, LOCALES) == 0 <==> Readable(folder, Vi) && Readable(folder, En) && Readable(folder, Zh)
  {
    hide Readable;
    assert LOCALES[1..] == [En, Zh] && [En, Zh][1..] == [Zh] && [Zh][1..] == [];
    assert Unreadable(folder, [En, Zh]) == (if Readable(folder, En) then 0 else 1) + Unreadable(folder, [Zh]);
  }

  lemma DifferencesEmpty(a: set<string>, b: set<string>)
    ensures |a - b| == 0 && |b - a| == 0 <==> a == b
  {
    if |a - b| == 0 && |b - a| == 0 {
      assert a - b == {} && b - a == {};
      assert forall key :: (key in a) == (key in b) by {
        assert forall key | key in a :: key in b || key in a - b;
        assert forall key | key in b :: key in a || key in b - a;
      }
    }
  }

  ghost predicate HoldsPlainObject(folder: Folder, locale: Locale) {
    Readable(folder, locale) && folder[locale].data.Object? && Plain(folder[locale].data.members)
  }

  ghost predicate PlainFolder(folder: Folder) {
    HoldsPlainObject(folder, Vi) && HoldsPlainObject(folder, En) && HoldsPlainObject(folder, Zh)
  }

  ghost predicate SameShapes(folder: Folder)
    requires PlainFolder(folder)
  {
    && Prune(folder[En].data.members) == Prune(folder[Vi].data.members)
    && Prune(folder[Zh].data.members) == Prune(folder[Vi].data.members)
  }

  /** With three objects of plain keys, parity says that all three have the same pruned shape. */
  lemma ParityIsSameShape(folder: Folder)
    requires PlainFolder(folder)
    ensures InParity(folder) <==> SameShapes(folder)
  {
    hide KeySet, Plain, Prune;
    SameKeysSameShape(folder[En].data.members, folder[Vi].data.members);
    SameKeysSameShape(folder[Zh].data.members, folder[Vi].data.members);
    assert Compared(folder, En) && Compared(folder, Zh);
  }

  /**
   The script exits with 0 exactly when every folder is in parity; for objects of plain keys, when their
   shapes agree.
   */
  method CheckParity(folders: seq<Folder>) returns (exitCode: nat, totalMissing: nat, totalExtra: nat)
    ensures totalMissing == TotalMissing(folders) && totalExtra == TotalExtra(folders)
    ensures exitCode == if forall folder | folder in folders :: InParity(folder) then 0 else 1
    ensures (forall folder | folder in folders :: PlainFolder(folder)) ==>
            (exitCode == 0 <==> forall folder | folder in folders :: SameShapes(folder))
  {
    hide FolderMissing, FolderExtra, InParity, PlainFolder, SameShapes;
    totalMissing, totalExtra := 0, 0;
    for i := 0 to |folders|
      invariant totalMissing + TotalMissing(folders[i..]) == TotalMissing(folders)
      invariant totalExtra + TotalExtra(folders[i..]) == TotalExtra(folders)
      invariant totalMissing == 0 && totalExtra == 0 <==> forall j | 0 <= j < i :: InParity(folders[j])
    {
      assert folders[i..][1..] == folders[i + 1..];
      var missing, extra := CheckFolder(folders[i]);
      NothingCounted(folders[i]);
      totalMissing, totalExtra := totalMissing + missing, totalExtra + extra;
    }
    exitCode := if totalMissing == 0 && totalExtra == 0 then 0 else 1;
    forall folder | folder in folders && PlainFolder(folder) ensures InParity(folder) <==> SameShapes(folder) {
      ParityIsSameShape(folder);
    }
  }

  /** What the script promises: three readable files with one key set. */
  ghost predicate Agree(folder: Folder) {
    && (forall locale :: Readable(folder, locale))
    && (forall a, b :: Keys(folder, a) == Keys(folder, b))
  }

  /** Falsy files (`null`, `false`, `0`, `""`) have no keys but are skipped, not compared. */
  lemma FalsyHasNoKeys(folder: Folder, locale: Locale)
    ensures !Truthy(Data(folder, locale)) ==> Keys(folder, locale) == {}
  {
  }

  /** The files agree exactly when the folder is in parity and no falsy file hides beside one with keys. */
  lemma ParityVersusAgreement(folder: Folder)
    ensures Agree(folder) <==>
            && InParity(folder)
            && !((exists locale :: !Truthy(Data(folder, locale))) && (exists locale :: Keys(folder, locale) != {}))
  {
    hide Truthy, Keys, Data;
    forall locale: Locale ensures !Truthy(Data(folder, locale)) ==> Keys(folder, locale) == {} {
      FalsyHasNoKeys(folder, locale);
    }
    if InParity(folder) && !(exists locale :: !Truthy(Data(folder, locale))) {
      forall locale ensures Readable(folder, locale) && Keys(folder, locale) == Keys(folder, Vi) {
        assert Compared(folder, En) && Compared(folder, Zh);
        match locale
        case Vi =>
        case En =>
        case Zh =>
      }
    }
    if InParity(folder) && !(exists locale :: Keys(folder, locale) != {}) {
      forall locale ensures Readable(folder, locale) {
        match locale
        case Vi =>
        case En =>
        case Zh =>
      }
    }
  }

  /** A compared locale that lacks some keys of vi and has no others is reported as missing them, and nothing as extra. */
  lemma FewerKeysAreMissing(folder: Folder, locale: Locale)
    requires Compared(folder, locale) && Keys(folder, locale) < Keys(folder, Vi)
    ensures Missing(folder, locale) > 0 && Extra(folder, locale) == 0
    ensures Missing(folder, locale) == |Keys(folder, Vi)| - |Keys(folder, locale)|
  {
    hide Keys;
    var all, some := Keys(folder, Vi), Keys(folder, locale);
    assert some - all == {};
    assert all == some + (all - some);
    var key :| key in all && key !in some;
    assert key in all - some;
  }

  const ONE_KEY := Parsed(Object([Member("a", Str("x"))]))

  const WITH_NULL: Folder := map[Vi := ONE_KEY, En := Parsed(Null), Zh := ONE_KEY]

  /** Such a folder exists: `null` beside a file with a key passes. */
  lemma NullFilePasses()
    ensures InParity(WITH_NULL) && !Agree(WITH_NULL)
  {
    FlattenOne(Member("a", Str("x")), "");
    assert Keys(WITH_NULL, Vi) == {"a"} && Keys(WITH_NULL, Zh) == {"a"} && Keys(WITH_NULL, En) == {};
  }
}

/**
 * Configuration inheritance and its minimisation: a config file overrides the merged configs of its parents, and
 * minimising drops what it repeats of them. Dropping keeps the expanded meaning exactly when no empty mapping stands over
 * something that is not a mapping and no empty list over anything but an empty list.
 */
module ConfigTree {
  import opened Seqs

  /** A plain configuration value. Interpolations are scalars: nothing here resolves them. */
  datatype Tree = Scalar(text: string) | List(items: seq<Tree>) | Dict(entries: map<string, Tree>)

  const EMPTY_DICT: Tree := Dict(map[])
  const EMPTY_LIST: Tree := List([])

  // ---- Merging ----

  /** The recursive merge: mappings are merged key by key, anything else is replaced. */
  function Merge(base: Tree, child: Tree): Tree
    decreases child
  {
    if base.Dict? && child.Dict? then
      Dict(map k | k in base.entries.Keys + child.entries.Keys ::
        if k in base.entries && k in child.entries then Merge(base.entries[k], child.entries[k])
        else if k in child.entries then child.entries[k]
        else base.entries[k])
    else child
  }

  /** Over anything that is not a mapping, and with anything that is not one, the child's value stands. */
  lemma MergeAt(base: Tree, child: Tree, k: string)
    requires base.Dict? && child.Dict? && k in child.entries
    requires k in base.entries ==> !base.entries[k].Dict? || !child.entries[k].Dict?
    ensures Merge(base, child).entries[k] == child.entries[k]
  {
    assert k in base.entries ==> Merge(base.entries[k], child.entries[k]) == child.entries[k];
  }

  /** Merging a mapping with a list, at any depth, is a type error. */
  ghost predicate Mergeable(base: Tree, child: Tree)
    decreases child
  {
    match (base, child)
    case (Dict(_), Dict(_)) =>
      forall k :: k in base.entries && k in child.entries ==> Mergeable(base.entries[k], child.entries[k])
    case (Dict(_), List(_)) => false
    case (List(_), Dict(_)) => false
    case _ => true
  }

  datatype MergeError = CannotMergeDictWithList

  ghost function MergeResult(base: Tree, child: Tree): Result<Tree, MergeError> {
    if Mergeable(base, child) then Ok(Merge(base, child)) else Err(CannotMergeDictWithList)
  }

  /** An empty mapping changes nothing, and everything can be merged into one. */
  lemma MergeEmpty(t: Tree)
    requires t.Dict?
    ensures Merge(t, EMPTY_DICT) == t && Merge(EMPTY_DICT, t) == t
    ensures Mergeable(t, EMPTY_DICT) && Mergeable(EMPTY_DICT, t)
  {
    assert Merge(t, EMPTY_DICT).entries == t.entries;
    assert Merge(EMPTY_DICT, t).entries == t.entries;
  }

  // ---- What merging gives, path by path ----

  /** What a path of keys leads to, if it leads through mappings. */
  function At(t: Tree, path: seq<string>): Option<Tree>
    decreases |path|
  {
    if path == [] then Some(t)
    else if t.Dict? && path[0] in t.entries then At(t.entries[path[0]], path[1..])
    else None
  }

  /** The path leads to a mapping in one tree and to a list in the other. */
  ghost predicate Clash(base: Tree, child: Tree, path: seq<string>) {
    match (At(base, path), At(child, path))
    case (Some(Dict(_)), Some(List(_))) => true
    case (Some(List(_)), Some(Dict(_))) => true
    case _ => false
  }

  lemma ClashBelow(base: Tree, child: Tree, k: string, path: seq<string>)
    requires base.Dict? && child.Dict? && k in base.entries && k in child.entries
    ensures Clash(base, child, [k] + path) <==> Clash(base.entries[k], child.entries[k], path)
  {
    assert ([k] + path)[0] == k && ([k] + path)[1..] == path;
  }

  /** Merging fails exactly when some path clashes. */
  lemma {:induction false} MergeFailsIff(base: Tree, child: Tree)
    ensures MergeResult(base, child).Err? <==> exists path :: Clash(base, child, path)
    decreases child
  {
    if base.Dict? && child.Dict? {
      if !Mergeable(base, child) {
        var k :| k in base.entries && k in child.entries && !Mergeable(base.entries[k], child.entries[k]);
        MergeFailsIff(base.entries[k], child.entries[k]);
        var path :| Clash(base.entries[k], child.entries[k], path);
        ClashBelow(base, child, k, path);
      }
      forall path | Clash(base, child, path) ensures !Mergeable(base, child) {
        assert path != [] && path == [path[0]] + path[1..];
        MergeFailsIff(base.entries[path[0]], child.entries[path[0]]);
        ClashBelow(base, child, path[0], path[1..]);
      }
    } else {
      assert Clash(base, child, []) <==> !Mergeable(base, child);
      forall path | path != [] ensures !Clash(base, child, path) {
      }
    }
  }

  /** The child decides about the path: it has a value there, or a value that is no mapping on the way. */
  predicate Overrides(child: Tree, path: seq<string>)
    decreases |path|
  {
    path == [] || !child.Dict? || (path[0] in child.entries && Overrides(child.entries[path[0]], path[1..]))
  }

  /**
   * Every path of the merged tree: it leads somewhere exactly when it does in the child, or in the base where the child
   * does not decide; and to a value that is no mapping exactly when it leads to that value there.
   */
  lemma {:induction false} MergedAt(base: Tree, child: Tree, path: seq<string>)
    ensures At(Merge(base, child), path).Some?
       <==> At(child, path).Some? || (At(base, path).Some? && !Overrides(child, path))
    ensures forall value: Tree :: !value.Dict? ==>
              (At(Merge(base, child), path) == Some(value)
               <==> At(child, path) == Some(value) || (At(base, path) == Some(value) && !Overrides(child, path)))
    decreases |path|
  {
    if path != [] && base.Dict? && child.Dict? && path[0] in base.entries && path[0] in child.entries {
      MergedAt(base.entries[path[0]], child.entries[path[0]], path[1..]);
      assert Merge(base, child).entries[path[0]] == Merge(base.entries[path[0]], child.entries[path[0]]);
    }
  }

  // ---- Pruning ----

  /** The result of pruning: nothing is left, or a tree. */
  datatype Pruned = Remove | Keep(tree: Tree)

  /** `_prune_equal`. */
  function Prune(a: Tree, b: Tree): Pruned
    decreases a
  {
    if a.Dict? && b.Dict? then
      Keep(Dict(map k | k in a.entries && (k in b.entries ==> HasContent(Prune(a.entries[k], b.entries[k]))) ::
        if k in b.entries then Prune(a.entries[k], b.entries[k]).tree else a.entries[k]))
    else if a.List? && b.List? && |a.items| == |b.items| then
      if a == b then Remove else Keep(a)
    else if a == b then Remove
    else Keep(a)
  }

  /** Only these are kept below a key that the base has too. */
  predicate HasContent(p: Pruned) { p.Keep? && p.tree != EMPTY_DICT && p.tree != EMPTY_LIST }

  /** What merging a pruned value into the base gives. */
  function After(base: Tree, p: Pruned): Tree { if p.Keep? then Merge(base, p.tree) else base }

  /** The child's entry is dropped although it means something else than the base's. */
  predicate EntryLost(base: Tree, child: Tree) {
    (child == EMPTY_DICT && !base.Dict?) || (child == EMPTY_LIST && base != EMPTY_LIST)
  }

  /** Nowhere does the child set `{}` over something that is not a mapping, or `[]` over anything but `[]`. */
  ghost predicate NothingLost(base: Tree, child: Tree)
    decreases child
  {
    base.Dict? && child.Dict? ==>
      forall k :: k in base.entries && k in child.entries ==>
        !EntryLost(base.entries[k], child.entries[k]) && NothingLost(base.entries[k], child.entries[k])
  }

  /** A key's value after pruning and merging, and before pruning. */
  ghost predicate EntryKept(base: Tree, child: Tree) {
    (if HasContent(Prune(child, base)) then Merge(base, Prune(child, base).tree) else base) == Merge(base, child)
  }

  lemma {:induction false} EntryKeptIff(base: Tree, child: Tree)
    requires After(base, Prune(child, base)) == Merge(base, child) <==> NothingLost(base, child)
    ensures EntryKept(base, child) <==> !EntryLost(base, child) && NothingLost(base, child)
  {
    if base.Dict? {
      MergeEmpty(base);
    }
  }

  /** Pruning and merging gives the same keys; the values decide. */
  lemma MergesByEntry(base: Tree, child: Tree)
    requires base.Dict? && child.Dict?
    ensures After(base, Prune(child, base)) == Merge(base, child)
       <==> forall k :: k in base.entries && k in child.entries ==> EntryKept(base.entries[k], child.entries[k])
  {
    var pruned := Prune(child, base).tree;
    var left, right := Merge(base, pruned).entries, Merge(base, child).entries;
    assert left.Keys == right.Keys;
    forall k | k in base.entries && k in child.entries
      ensures left[k] == right[k] <==> EntryKept(base.entries[k], child.entries[k])
    {
    }
    assert (forall k :: k in left ==> left[k] == right[k]) <==> left == right;
  }

  /** For all trees: pruning keeps the merged meaning exactly when nothing is lost. */
  lemma {:induction false} PruneKeepsMeaningIff(base: Tree, child: Tree)
    ensures After(base, Prune(child, base)) == Merge(base, child) <==> NothingLost(base, child)
    decreases child
  {
    if base.Dict? && child.Dict? {
      forall k | k in base.entries && k in child.entries
        ensures EntryKept(base.entries[k], child.entries[k])
           <==> !EntryLost(base.entries[k], child.entries[k]) && NothingLost(base.entries[k], child.entries[k])
      {
        PruneKeepsMeaningIff(base.entries[k], child.entries[k]);
        EntryKeptIff(base.entries[k], child.entries[k]);
      }
      MergesByEntry(base, child);
    }
  }

  /** Pruning never introduces a type error. */
  lemma {:induction false} PruneKeepsMergeable(base: Tree, child: Tree)
    requires Mergeable(base, child)
    ensures Prune(child, base).Keep? ==> Mergeable(base, Prune(child, base).tree)
    decreases child
  {
    if base.Dict? && child.Dict? {
      forall k | k in base.entries && k in child.entries
        ensures HasContent(Prune(child.entries[k], base.entries[k])) ==>
                  Mergeable(base.entries[k], Prune(child.entries[k], base.entries[k]).tree)
      {
        PruneKeepsMergeable(base.entries[k], child.entries[k]);
      }
    }
  }

  /** Where nothing is lost it hides none either. */
  lemma {:induction false} PruneHidesNoError(base: Tree, child: Tree)
    requires NothingLost(base, child)
    requires Prune(child, base).Keep? ==> Mergeable(base, Prune(child, base).tree)
    ensures Mergeable(base, child)
    decreases child
  {
    if base.Dict? && child.Dict? {
      var pruned := Prune(child, base).tree;
      forall k | k in base.entries && k in child.entries ensures Mergeable(base.entries[k], child.entries[k]) {
        var b, c := base.entries[k], child.entries[k];
        if HasContent(Prune(c, b)) {
          assert pruned.entries[k] == Prune(c, b).tree;
        } else if b.Dict? {
          MergeEmpty(b);
        }
        PruneHidesNoError(b, c);
      }
    }
  }

  /**
   * With type errors as results: the outcome of merging is the same exactly when nothing is lost, or when both merges
   * fail alike because the pruned child cannot be merged either.
   */
  lemma PruneKeepsResultIff(base: Tree, child: Tree)
    requires base.Dict? && child.Dict?
    ensures MergeResult(base, Prune(child, base).tree) == MergeResult(base, child)
       <==> NothingLost(base, child) || !Mergeable(base, Prune(child, base).tree)
  {
    PruneKeepsMeaningIff(base, child);
    if Mergeable(base, child) {
      PruneKeepsMergeable(base, child);
    }
    if NothingLost(base, child) && Mergeable(base, Prune(child, base).tree) {
      PruneHidesNoError(base, child);
    }
  }

  /** For a child that can be merged, that is exactly when nothing is lost. */
  lemma PruneKeepsMergeIff(base: Tree, child: Tree)
    requires base.Dict? && child.Dict? && Mergeable(base, child)
    ensures MergeResult(base, Prune(child, base).tree) == MergeResult(base, child) <==> NothingLost(base, child)
  {
    PruneKeepsResultIff(base, child);
    PruneKeepsMergeable(base, child);
  }

  /** Pruning again removes nothing more. */
  lemma {:induction false} PruneIsIdempotent(base: Tree, child: Tree)
    requires Prune(child, base).Keep?
    ensures Prune(Prune(child, base).tree, base) == Prune(child, base)
    decreases child
  {
    if base.Dict? && child.Dict? {
      var pruned := Prune(child, base).tree;
      forall k | k in pruned.entries && k in base.entries
        ensures Prune(pruned.entries[k], base.entries[k]) == Keep(pruned.entries[k])
      {
        PruneIsIdempotent(base.entries[k], child.entries[k]);
      }
      assert Prune(pruned, base).tree.entries == pruned.entries;
    }
  }

  // ---- What is kept is needed ----

  /** The tree without the entry that `path` leads to. */
  function DropAt(t: Tree, path: seq<string>): Tree
    requires path != []
    decreases |path|
  {
    if !t.Dict? || path[0] !in t.entries then t
    else if |path| == 1 then Dict(t.entries - {path[0]})
    else Dict(t.entries[path[0] := DropAt(t.entries[path[0]], path[1..])])
  }

  ghost predicate HasPath(t: Tree, path: seq<string>)
    decreases |path|
  {
    path != [] && t.Dict? && path[0] in t.entries && (|path| > 1 ==> HasPath(t.entries[path[0]], path[1..]))
  }

  lemma {:induction false} DropChanges(t: Tree, path: seq<string>)
    requires HasPath(t, path)
    ensures DropAt(t, path) != t
    decreases |path|
  {
    if |path| > 1 {
      DropChanges(t.entries[path[0]], path[1..]);
      assert DropAt(t, path).entries[path[0]] != t.entries[path[0]];
    } else {
      assert path[0] !in DropAt(t, path).entries;
    }
  }

  /** What has content after pruning changes the base. */
  lemma {:induction false} ContentChanges(base: Tree, child: Tree)
    requires HasContent(Prune(child, base))
    ensures Merge(base, Prune(child, base).tree) != base
    decreases child
  {
    if base.Dict? && child.Dict? {
      var pruned := Prune(child, base).tree;
      var k :| k in pruned.entries;
      if k in base.entries {
        ContentChanges(base.entries[k], child.entries[k]);
        assert Merge(base, pruned).entries[k] != base.entries[k];
      } else {
        assert k in Merge(base, pruned).entries;
      }
    }
  }

  /** Minimal: dropping any entry that pruning kept, at any depth, changes the merged configuration. */
  lemma {:induction false} KeptEntriesAreNeeded(base: Tree, child: Tree, path: seq<string>)
    requires base.Dict? && child.Dict? && HasPath(Prune(child, base).tree, path)
    ensures Merge(base, DropAt(Prune(child, base).tree, path)) != Merge(base, Prune(child, base).tree)
    decreases |path|
  {
    var pruned, k := Prune(child, base).tree, path[0];
    var whole, less := Merge(base, pruned).entries, Merge(base, DropAt(pruned, path)).entries;
    if k !in base.entries {
      if |path| > 1 {
        DropChanges(pruned.entries[k], path[1..]);
        assert less[k] != whole[k];
      } else {
        assert k in whole && k !in less;
      }
    } else {
      var b, c := base.entries[k], child.entries[k];
      assert pruned.entries[k] == Prune(c, b).tree && whole[k] == Merge(b, Prune(c, b).tree);
      if |path| == 1 {
        ContentChanges(b, c);
        assert less[k] == b;
      } else if b.Dict? && c.Dict? {
        KeptEntriesAreNeeded(b, c, path[1..]);
        assert less[k] == Merge(b, DropAt(Prune(c, b).tree, path[1..]));
      } else {
        assert Prune(c, b).tree.Dict? && !b.Dict?;
        DropChanges(Prune(c, b).tree, path[1..]);
        MergeAt(base, DropAt(pruned, path), k);
        MergeAt(base, pruned, k);
      }
    }
  }

  // ---- Config files ----

  /** The `defaults` key: absent, one file, or a list of files. */
  datatype Defaults = NoDefaults | One(parent: ConfigFile) | Many(parents: seq<ConfigFile>)

  /** A config file with its parents and its own entries. */
  datatype ConfigFile = ConfigFile(defaults: Defaults, entries: map<string, Tree>)

  function Parents(file: ConfigFile): seq<ConfigFile> {
    match file.defaults
    case NoDefaults => []
    case One(parent) => [parent]
    case Many(parents) => parents
  }

  /** `load_config_with_inheritance`: the parents merged in order, then the file itself merged over them. */
  ghost function Load(file: ConfigFile): (r: Result<Tree, MergeError>)
    ensures r.Ok? ==> r.value.Dict?
    decreases file, |Parents(file)| + 1
  {
    if file.defaults.NoDefaults? then Ok(Dict(file.entries))
    else MergeOver(LoadParents(file, |Parents(file)|), Ok(Dict(file.entries)))
  }

  ghost function MergeOver(base: Result<Tree, MergeError>, child: Result<Tree, MergeError>): (r: Result<Tree, MergeError>)
    requires (base.Ok? ==> base.value.Dict?) && (child.Ok? ==> child.value.Dict?)
    ensures r.Ok? ==> r.value.Dict?
  {
    if base.Err? then base else if child.Err? then child else MergeResult(base.value, child.value)
  }

  /** The first `n` parents merged, starting from an empty configuration. */
  ghost function LoadParents(file: ConfigFile, n: nat): (r: Result<Tree, MergeError>)
    requires n <= |Parents(file)|
    ensures r.Ok? ==> r.value.Dict?
    decreases file, n
  {
    if n == 0 then Ok(EMPTY_DICT)
    else
      assert Parents(file)[n - 1] < file by { ParentIsSmaller(file, n - 1); }
      MergeOver(LoadParents(file, n - 1), Load(Parents(file)[n - 1]))
  }

  lemma ParentIsSmaller(file: ConfigFile, i: nat)
    requires i < |Parents(file)|
    ensures Parents(file)[i] < file
  {
    if file.defaults.Many? {
      assert file.defaults.parents[i] < file.defaults;
    }
  }

  /** A file with one parent is the parent's expansion with the file merged over it. */
  lemma LoadOne(file: ConfigFile)
    requires file.defaults.One?
    ensures var p := Load(file.defaults.parent);
      Load(file) == if p.Err? then p else MergeResult(p.value, Dict(file.entries))
  {
    var p := Load(file.defaults.parent);
    assert LoadParents(file, 0) == Ok(EMPTY_DICT);
    assert LoadParents(file, 1) == MergeOver(LoadParents(file, 0), p);
    if p.Ok? {
      MergeEmpty(p.value);
    }
  }

  ghost predicate Clashes(base: Tree, child: Tree) { exists path :: Clash(base, child, path) }

  /** Merging the parents fails exactly when one of them does not load, or clashes with those before it. */
  lemma {:induction false} ParentsFailIff(file: ConfigFile, n: nat)
    requires n <= |Parents(file)|
    ensures LoadParents(file, n).Err? <==>
      exists i :: 0 <= i < n && ParentFails(file, i)
  {
    if n > 0 {
      var p, before := Load(Parents(file)[n - 1]), LoadParents(file, n - 1);
      ParentsFailIff(file, n - 1);
      if before.Ok? && p.Ok? {
        MergeFailsIff(before.value, p.value);
      }
      assert ParentFails(file, n - 1) <==> p.Err? || (before.Ok? && Clashes(before.value, p.value));
    }
  }

  ghost predicate ParentFails(file: ConfigFile, i: nat)
    requires i < |Parents(file)|
  {
    var p, before := Load(Parents(file)[i]), LoadParents(file, i);
    p.Err? || (before.Ok? && Clashes(before.value, p.value))
  }

  /**
   * A file does not load exactly when one of its parents does not, or clashes with the parents before it, or the file
   * clashes with all of them merged.
   */
  lemma LoadFailsIff(file: ConfigFile)
    ensures Load(file).Err? <==> (exists i :: 0 <= i < |Parents(file)| && ParentFails(file, i)) || FileFails(file)
  {
    ParentsFailIff(file, |Parents(file)|);
    var base := LoadParents(file, |Parents(file)|);
    if base.Ok? {
      MergeFailsIff(base.value, Dict(file.entries));
    }
    MergeEmpty(Dict(file.entries));
  }

  ghost predicate FileFails(file: ConfigFile) {
    var base := LoadParents(file, |Parents(file)|);
    base.Ok? && Clashes(base.value, Dict(file.entries))
  }

  /** In a list of parents the later ones take precedence, and the file over all of them. */
  lemma LaterParentsWin(file: ConfigFile, key: string, value: Tree)
    requires Load(file).Ok? && !value.Dict?
    requires key in file.entries ==> file.entries[key] == value
    requires key !in file.entries ==> LastWith(file, |Parents(file)|, key) == Some(value)
    ensures key in Load(file).value.entries && Load(file).value.entries[key] == value
  {
    var base := LoadParents(file, |Parents(file)|);
    if key !in file.entries {
      LastParentWins(file, |Parents(file)|, key, value);
    } else if file.defaults != NoDefaults {
      MergeAt(base.value, Dict(file.entries), key);
    }
  }

  /** What the last of the first `n` parents that has the key says about it. */
  ghost function LastWith(file: ConfigFile, n: nat, key: string): Option<Tree>
    requires n <= |Parents(file)|
  {
    if n == 0 then None
    else
      var p := Load(Parents(file)[n - 1]);
      if p.Ok? && key in p.value.entries then Some(p.value.entries[key]) else LastWith(file, n - 1, key)
  }

  lemma {:induction false} LastParentWins(file: ConfigFile, n: nat, key: string, value: Tree)
    requires n <= |Parents(file)| && LoadParents(file, n).Ok? && LastWith(file, n, key) == Some(value) && !value.Dict?
    ensures key in LoadParents(file, n).value.entries && LoadParents(file, n).value.entries[key] == value
  {
    var p := Load(Parents(file)[n - 1]);
    var before := LoadParents(file, n - 1);
    assert LoadParents(file, n) == MergeOver(before, p);
    if key in p.value.entries {
      MergeAt(before.value, p.value, key);
    } else {
      LastParentWins(file, n - 1, key, value);
    }
  }

  // ---- Minimising a file ----

  datatype MinimizeError = MissingDefaults | ListOfDefaults | BaseDoesNotLoad(error: MergeError)

  /** `minimize` without an explicit base: the file is pruned against its expanded parent; its `defaults` stay. */
  ghost function Minimize(file: ConfigFile): Result<ConfigFile, MinimizeError> {
    match file.defaults
    case NoDefaults => Err(MissingDefaults)
    case Many(_) => Err(ListOfDefaults)
    case One(parent) =>
      var base := Load(parent);
      if base.Err? then Err(BaseDoesNotLoad(base.error))
      else Ok(ConfigFile(file.defaults, Prune(Dict(file.entries), base.value).tree.entries))
  }

  /** A file can be minimised exactly when it has one parent, given by itself and not in a list, and that parent loads. */
  lemma MinimizeFailsIff(file: ConfigFile)
    ensures Minimize(file).Err? <==>
      match file.defaults {
        case NoDefaults => true
        case Many(_) => true
        case One(parent) => (exists i :: 0 <= i < |Parents(parent)| && ParentFails(parent, i)) || FileFails(parent)
      }
    ensures Minimize(file).Ok? ==> Minimize(file).value.defaults == file.defaults
  {
    if file.defaults.One? {
      LoadFailsIff(file.defaults.parent);
    }
  }

  /** The expanded parent of a file that can be minimised. */
  ghost function BaseOf(file: ConfigFile): Tree
    requires Minimize(file).Ok?
  {
    Load(file.defaults.parent).value
  }

  /**
   * For every file: the minimised file expands to what the file expands to exactly when nothing is lost against the
   * expanded parent, or when neither expands because the pruned entries do not merge either.
   */
  lemma MinimizeKeepsMeaningIff(file: ConfigFile)
    requires Minimize(file).Ok?
    ensures Load(Minimize(file).value) == Load(file)
       <==> NothingLost(BaseOf(file), Dict(file.entries)) || Clashes(BaseOf(file), Dict(Minimize(file).value.entries))
  {
    MergeFailsIff(BaseOf(file), Dict(Minimize(file).value.entries));
    LoadOne(file);
    LoadOne(Minimize(file).value);
    PruneKeepsResultIff(BaseOf(file), Dict(file.entries));
  }

  /** For a file that expands, that is exactly when nothing is lost. */
  lemma MinimizeKeepsExpansionIff(file: ConfigFile)
    requires Minimize(file).Ok? && Load(file).Ok?
    ensures Load(Minimize(file).value) == Load(file) <==> NothingLost(BaseOf(file), Dict(file.entries))
  {
    LoadOne(file);
    LoadOne(Minimize(file).value);
    PruneKeepsMergeIff(BaseOf(file), Dict(file.entries));
  }

  /** Minimising a minimised file changes nothing. */
  lemma MinimizeIsIdempotent(file: ConfigFile)
    requires Minimize(file).Ok?
    ensures Minimize(Minimize(file).value) == Minimize(file)
  {
    PruneIsIdempotent(BaseOf(file), Dict(file.entries));
  }

  /** A file whose `{}` over a scalar disappears, so that it expands to something else. */
  lemma EmptyMappingIsLost()
    ensures exists file: ConfigFile :: Minimize(file).Ok? && Load(Minimize(file).value) != Load(file)
  {
    var parent := ConfigFile(NoDefaults, map["x" := Scalar("1")]);
    var file := ConfigFile(One(parent), map["x" := EMPTY_DICT]);
    assert BaseOf(file) == Dict(parent.entries);
    assert EntryLost(BaseOf(file).entries["x"], file.entries["x"]);
    MinimizeKeepsMeaningIff(file);
    var pruned := Minimize(file).value.entries;
    assert Prune(EMPTY_DICT, Scalar("1")) == Keep(EMPTY_DICT);
    assert "x" !in pruned;
    assert pruned == map[];
  }
}

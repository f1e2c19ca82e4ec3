/** The mount registry: which virtual directories the mount paths project below a prefix. */
module Projection {
  import opened Common
  import opened Text
  import opened Paths
  import opened Mounts

  datatype ProjectedVirtualDir = ProjectedVirtualDir(name: string, path: string, isMountPoint: bool)

  // ---- The registry's mounts ------------------------------------------------------------------

  function SourceMountPath(source: Source): string {
    if source.mountPath == "" && source.webdavSlug != "" then "/" + source.webdavSlug else source.mountPath
  }

  /** The registry normalizes the mount paths it hands out. */
  predicate MountsAreCanonical(mounts: seq<MountEntry>) {
    forall i | 0 <= i < |mounts| :: IsCanonical(mounts[i].mountPath)
  }

  /** `buildMountEntries`: one entry for each source with a mount path, in order. */
  method BuildMountEntries(sources: seq<Source>) returns (r: Result<seq<MountEntry>>)
    ensures r.Ok? ==> MountsAreCanonical(r.value)
    ensures r.Ok? <==> forall i | 0 <= i < |sources| && SourceMountPath(sources[i]) != "" ::
              NormalizeVirtualPath(SourceMountPath(sources[i])).Ok?
    ensures r.Ok? ==> forall s: Source, p: string :: MountEntry(p, s) in r.value <==>
              s in sources && SourceMountPath(s) != "" && NormalizeVirtualPath(SourceMountPath(s)) == Ok(p)
  {
    hide NormalizeVirtualPath, IsCanonical, SourceMountPath;
    var items: seq<MountEntry> := [];
    for i := 0 to |sources|
      invariant MountsAreCanonical(items)
      invariant forall j | 0 <= j < i && SourceMountPath(sources[j]) != "" ::
                NormalizeVirtualPath(SourceMountPath(sources[j])).Ok?
      invariant forall s: Source, p: string :: MountEntry(p, s) in items <==>
                  s in sources[..i] && SourceMountPath(s) != "" && NormalizeVirtualPath(SourceMountPath(s)) == Ok(p)
    {
      var mountPath := SourceMountPath(sources[i]);
      assert sources[..i + 1] == sources[..i] + [sources[i]];
      if mountPath == "" { continue; }
      var normalized := NormalizeVirtualPath(mountPath);
      if normalized.Err? { return Err(normalized.error); }
      items := items + [MountEntry(normalized.value, sources[i])];
    }
    assert sources[..|sources|] == sources;
    return Ok(items);
  }

  /** `HasMountPathConflict`, given all mounts. */
  method HasMountPathConflict(mountPath: string, excludeID: Id, mounts: seq<MountEntry>) returns (r: Result<bool>)
    ensures r.Err? <==> NormalizeVirtualPath(mountPath).Err?
    ensures r.Ok? ==> (r.value <==> exists m :: m in mounts && m.source.id != excludeID
                                       && Ok(m.mountPath) == NormalizeVirtualPath(mountPath))
  {
    hide NormalizeVirtualPath;
    var normalized := NormalizeVirtualPath(mountPath);
    if normalized.Err? { return Err(normalized.error); }
    for i := 0 to |mounts|
      invariant forall j | 0 <= j < i :: mounts[j].source.id == excludeID || mounts[j].mountPath != normalized.value
    {
      if mounts[i].source.id == excludeID { continue; }
      if mounts[i].mountPath == normalized.value {
        assert mounts[i] in mounts;
        return Ok(true);
      }
    }
    return Ok(false);
  }

  // ---- Projecting -----------------------------------------------------------------------------

  /** The next segment below `prefix` on the way to a mount strictly below it. */
  ghost predicate LeadsTo(prefix: string, mounts: seq<MountEntry>, n: nat, name: string)
    requires n <= |mounts|
  {
    exists i | 0 <= i < n :: NextSegment(prefix, mounts[i].mountPath, name)
  }

  predicate NextSegment(prefix: string, mountPath: string, name: string) {
    && Segments(prefix) < Segments(mountPath)
    && Segments(mountPath)[|Segments(prefix)|] == name
  }

  ghost predicate MountedAt(mounts: seq<MountEntry>, n: nat, path: string)
    requires n <= |mounts|
  {
    exists i | 0 <= i < n :: mounts[i].mountPath == path
  }

  /** `name` as the service computes it: what stands before the first slash of the rest. */
  function FirstPart(relative: string): string {
    Split(relative)[0]
  }

  /** Cutting the prefix off a mount path below it and splitting yields the next segment. */
  lemma CutIsNextSegment(prefix: string, mountPath: string)
    requires IsCanonical(prefix) && IsCanonical(mountPath) && IsSubPath(prefix, mountPath) && prefix != mountPath
    ensures
      var relative := TrimPrefix(TrimPrefix(mountPath, prefix), "/");
      && relative != "" && FirstPart(relative) != "" && CleanSegment(FirstPart(relative))
      && NextSegment(prefix, mountPath, FirstPart(relative))
  {
    SubPathIsSegmentPrefix(prefix, mountPath);
    CanonicalSegments(prefix);
    CanonicalSegments(mountPath);
    var p, m := Segments(prefix), Segments(mountPath);
    hide Segments, IsSubPath, IsCanonical;
    var more := m[|p|..];
    assert m == p + more;
    assert more == [] ==> m == p;
    assert forall i | 0 <= i < |more| :: more[i] == m[|p| + i];
    RestOfRender(p, more);
  }

  lemma RestOfRender(p: seq<string>, more: seq<string>)
    requires CleanSegments(p) && CleanSegments(more) && more != []
    ensures
      var relative := TrimPrefix(TrimPrefix(Render(p + more), Render(p)), "/");
      relative != "" && Split(relative) == more
  {
    var slashed := Slashed(more);
    SplitOfSlashed(more);
    assert slashed[0] == '/' && more[0][0] in more[0];
    var rel := slashed[1..];
    assert slashed == "/" + (more[0] + Slashed(more[1..]));
    assert rel == more[0] + Slashed(more[1..]);
    SplitStep('/', rel);
    assert ['/'] + rel == slashed;
    assert ([""] + Split(rel))[1..] == ([""] + more)[1..];
    assert Split(rel) == more;
    SlashedConcat(p, more);
    assert rel[0] == more[0][0];
    assert TrimPrefix(rel, "/") == rel;
    if p == [] {
      assert p + more == more;
      assert TrimPrefix(Render(more), "/") == rel;
    } else {
      assert TrimPrefix(Render(p + more), Render(p)) == slashed;
    }
  }

  /** What the projection of a prefix must be: sorted by name, one entry for each next segment, flagged
      as a mount point exactly when a mount sits at that very path. */
  ghost predicate Projects(prefix: string, mounts: seq<MountEntry>, items: seq<ProjectedVirtualDir>) {
    && (forall i, j | 0 <= i < j < |items| :: Before(items[i].name, items[j].name))
    && (forall name :: LeadsTo(prefix, mounts, |mounts|, name) <==> Listed(items, name))
    && (forall i | 0 <= i < |items| ::
          && items[i].path == JoinVirtualPath(prefix, items[i].name)
          && (items[i].isMountPoint <==> MountedAt(mounts, |mounts|, items[i].path)))
  }

  predicate Listed(items: seq<ProjectedVirtualDir>, name: string) {
    exists i | 0 <= i < |items| :: items[i].name == name
  }

  /** Go's `<` on strings, by code unit. */
  predicate Before(a: string, b: string) {
    b != "" && (a == "" || a[0] < b[0] || (a[0] == b[0] && Before(a[1..], b[1..])))
  }

  /** The map the loop fills, after the first `n` mounts. */
  ghost predicate Collected(prefix: string, mounts: seq<MountEntry>, n: nat, children: map<string, ProjectedVirtualDir>)
    requires n <= |mounts|
  {
    && (forall name :: name in children <==> LeadsTo(prefix, mounts, n, name))
    && (forall name | name in children :: EntryIs(prefix, mounts, n, name, children[name]))
  }

  ghost predicate EntryIs(prefix: string, mounts: seq<MountEntry>, n: nat, name: string, item: ProjectedVirtualDir)
    requires n <= |mounts|
  {
    && CleanSegment(name) && item.name == name && item.path == JoinVirtualPath(prefix, name)
    && (item.isMountPoint <==> MountedAt(mounts, n, item.path))
  }

  lemma NothingLeads(prefix: string, mounts: seq<MountEntry>, n: nat)
    requires n < |mounts| && IsCanonical(prefix) && MountsAreCanonical(mounts)
    requires mounts[n].mountPath == prefix || !IsSubPath(prefix, mounts[n].mountPath)
    ensures forall name :: LeadsTo(prefix, mounts, n + 1, name) <==> LeadsTo(prefix, mounts, n, name)
    ensures forall name | CleanSegment(name) ::
              MountedAt(mounts, n + 1, JoinVirtualPath(prefix, name)) <==>
                MountedAt(mounts, n, JoinVirtualPath(prefix, name))
  {
    SubPathIsSegmentPrefix(prefix, mounts[n].mountPath);
    forall name | CleanSegment(name) ensures JoinVirtualPath(prefix, name) != mounts[n].mountPath {
      JoinIsRender(prefix, name);
      assert |Segments(JoinVirtualPath(prefix, name))| == |Segments(prefix)| + 1;
    }
    assert forall name :: !NextSegment(prefix, mounts[n].mountPath, name);
  }

  lemma OneMoreLeads(prefix: string, mounts: seq<MountEntry>, n: nat, name: string)
    requires n < |mounts| && IsCanonical(prefix) && MountsAreCanonical(mounts)
    requires CleanSegment(name) && NextSegment(prefix, mounts[n].mountPath, name)
    ensures forall other :: LeadsTo(prefix, mounts, n + 1, other)
                            <==> LeadsTo(prefix, mounts, n, other) || other == name
    ensures forall other | CleanSegment(other) ::
              MountedAt(mounts, n + 1, JoinVirtualPath(prefix, other))
              <==> MountedAt(mounts, n, JoinVirtualPath(prefix, other))
                   || (other == name && JoinVirtualPath(prefix, other) == mounts[n].mountPath)
    ensures LeadsTo(prefix, mounts, n, name) || !MountedAt(mounts, n, JoinVirtualPath(prefix, name))
  {
    assert NextSegment(prefix, mounts[n].mountPath, name);
    forall other | CleanSegment(other) && JoinVirtualPath(prefix, other) == mounts[n].mountPath ensures other == name {
      JoinIsRender(prefix, other);
    }
    JoinIsRender(prefix, name);
    if MountedAt(mounts, n, JoinVirtualPath(prefix, name)) {
      var i :| 0 <= i < n && mounts[i].mountPath == JoinVirtualPath(prefix, name);
      assert Segments(mounts[i].mountPath) == Segments(prefix) + [name];
      assert NextSegment(prefix, mounts[i].mountPath, name);
    }
    assert LeadsTo(prefix, mounts, n + 1, name);
    forall other | LeadsTo(prefix, mounts, n, other) ensures LeadsTo(prefix, mounts, n + 1, other) {
      var i :| 0 <= i < n && NextSegment(prefix, mounts[i].mountPath, other);
      assert 0 <= i < n + 1 && NextSegment(prefix, mounts[i].mountPath, other);
    }
  }

  lemma OneMoreCollected(prefix: string, mounts: seq<MountEntry>, n: nat, name: string,
                         children: map<string, ProjectedVirtualDir>, children': map<string, ProjectedVirtualDir>)
    requires n < |mounts| && IsCanonical(prefix) && MountsAreCanonical(mounts)
    requires CleanSegment(name) && NextSegment(prefix, mounts[n].mountPath, name)
    requires Collected(prefix, mounts, n, children)
    requires
      var childPath := JoinVirtualPath(prefix, name);
      children' == if name in children && children[name].isMountPoint then children
                   else children[name := ProjectedVirtualDir(name, childPath, childPath == mounts[n].mountPath)]
    ensures Collected(prefix, mounts, n + 1, children')
  {
    hide NextSegment, IsCanonical, CleanSegment, LeadsTo, MountedAt, JoinVirtualPath, MountsAreCanonical, EntryIs;
    OneMoreLeads(prefix, mounts, n, name);
    forall other | other in children' ensures EntryIs(prefix, mounts, n + 1, other, children'[other]) {
      EntryAfter(prefix, mounts, n, name, other, children, children'[other]);
    }
  }

  lemma EntryAfter(prefix: string, mounts: seq<MountEntry>, n: nat, name: string, other: string,
                   children: map<string, ProjectedVirtualDir>, item: ProjectedVirtualDir)
    requires n < |mounts| && IsCanonical(prefix) && MountsAreCanonical(mounts)
    requires CleanSegment(name) && NextSegment(prefix, mounts[n].mountPath, name)
    requires Collected(prefix, mounts, n, children)
    requires if other != name || (name in children && children[name].isMountPoint) then other in children
             && item == children[other]
             else item == ProjectedVirtualDir(name, JoinVirtualPath(prefix, name),
                                              JoinVirtualPath(prefix, name) == mounts[n].mountPath)
    ensures EntryIs(prefix, mounts, n + 1, other, item)
  {
    OneMoreLeads(prefix, mounts, n, name);
    hide NextSegment, IsCanonical, CleanSegment, LeadsTo, MountedAt, JoinVirtualPath, MountsAreCanonical;
    assert other in children ==> EntryIs(prefix, mounts, n, other, children[other]);
  }

  method ProjectVirtualDirsFromMounts(prefix: string, mounts: seq<MountEntry>)
    returns (r: Result<seq<ProjectedVirtualDir>>)
    requires MountsAreCanonical(mounts)
    ensures r.Err? <==> NormalizeVirtualPath(prefix).Err?
    ensures r.Ok? ==> Projects(NormalizeVirtualPath(prefix).value, mounts, r.value)
  {
    hide NormalizeVirtualPath, IsSubPath, Collected, NextSegment, CleanSegment, IsCanonical, FirstPart, Projects,
         JoinVirtualPath;
    var normalized := NormalizeVirtualPath(prefix);
    if normalized.Err? { return Err(normalized.error); }
    var base := normalized.value;
    var children: map<string, ProjectedVirtualDir> := map[];
    CollectedStart(base, mounts);
    var i := 0;
    while i < |mounts|
      invariant 0 <= i <= |mounts|
      invariant Collected(base, mounts, i, children)
    {
      var mount := mounts[i];
      i := i + 1;
      if mount.mountPath == base || !IsSubPath(base, mount.mountPath) {
        NothingCollected(base, mounts, i - 1, children);
        continue;
      }
      CutIsNextSegment(base, mount.mountPath);
      var relative := TrimPrefix(TrimPrefix(mount.mountPath, base), "/");
      var name := FirstPart(relative);
      var childPath := JoinVirtualPath(base, name);
      ghost var before := children;
      if !(name in children && children[name].isMountPoint) {
        children := children[name := ProjectedVirtualDir(name, childPath, childPath == mount.mountPath)];
      }
      OneMoreCollected(base, mounts, i - 1, name, before, children);
    }
    CollectedNames(base, mounts, children);
    var items := SortedItems(children);
    CollectedIsProjected(base, mounts, children, items);
    return Ok(items);
  }

  lemma CollectedNames(prefix: string, mounts: seq<MountEntry>, children: map<string, ProjectedVirtualDir>)
    requires Collected(prefix, mounts, |mounts|, children)
    ensures forall name | name in children :: children[name].name == name
  {
  }

  lemma CollectedStart(prefix: string, mounts: seq<MountEntry>)
    ensures Collected(prefix, mounts, 0, map[])
  {
  }

  lemma NothingCollected(prefix: string, mounts: seq<MountEntry>, n: nat, children: map<string, ProjectedVirtualDir>)
    requires n < |mounts| && IsCanonical(prefix) && MountsAreCanonical(mounts)
    requires mounts[n].mountPath == prefix || !IsSubPath(prefix, mounts[n].mountPath)
    requires Collected(prefix, mounts, n, children)
    ensures Collected(prefix, mounts, n + 1, children)
  {
    NothingLeads(prefix, mounts, n);
    hide LeadsTo, MountedAt, JoinVirtualPath, IsCanonical, IsSubPath, CleanSegment;
  }

  lemma CollectedIsProjected(prefix: string, mounts: seq<MountEntry>, children: map<string, ProjectedVirtualDir>,
                             items: seq<ProjectedVirtualDir>)
    requires Collected(prefix, mounts, |mounts|, children) && SortedSoFar(children, {}, items)
    ensures Projects(prefix, mounts, items)
  {
    hide Listed, LeadsTo, MountedAt, JoinVirtualPath, Before, CleanSegment;
    forall i | 0 <= i < |items| ensures Listed(items, items[i].name) {
      ItemIsListed(items, i);
    }
    forall name ensures Listed(items, name) ==> name in children {
      if Listed(items, name) { ListedIsKey(children, items, name); }
    }
    forall i | 0 <= i < |items|
      ensures items[i].path == JoinVirtualPath(prefix, items[i].name)
      ensures items[i].isMountPoint <==> MountedAt(mounts, |mounts|, items[i].path)
    {
      assert EntryIs(prefix, mounts, |mounts|, items[i].name, children[items[i].name]);
    }
  }

  lemma ItemIsListed(items: seq<ProjectedVirtualDir>, i: nat)
    requires i < |items|
    ensures Listed(items, items[i].name)
  {
  }

  lemma ListedIsKey(children: map<string, ProjectedVirtualDir>, items: seq<ProjectedVirtualDir>, name: string)
    requires forall i | 0 <= i < |items| :: items[i].name in children
    requires Listed(items, name)
    ensures name in children
  {
  }

  // ---- Sorting --------------------------------------------------------------------------------

  lemma {:induction false} BeforeIsTotal(a: string, b: string)
    ensures Before(a, b) || a == b || Before(b, a)
    ensures !Before(a, a)
  {
    if a != "" && b != "" && a[0] == b[0] {
      BeforeIsTotal(a[1..], b[1..]);
      assert a == [a[0]] + a[1..] && b == [b[0]] + b[1..];
    }
    if a != "" { BeforeIsTotal(a[1..], a[1..]); }
  }

  lemma {:induction false} BeforeIsTransitive(a: string, b: string, c: string)
    requires Before(a, b) && Before(b, c)
    ensures Before(a, c)
  {
    if a != "" && a[0] == b[0] == c[0] { BeforeIsTransitive(a[1..], b[1..], c[1..]); }
  }

  lemma LeastExists(names: set<string>)
    requires names != {}
    ensures exists m | m in names :: forall k | k in names :: k == m || Before(m, k)
    decreases |names|
  {
    var x :| x in names;
    var rest := names - {x};
    if rest == {} {
      assert names == {x};
    } else {
      LeastExists(rest);
      var m :| m in rest && forall k | k in rest :: k == m || Before(m, k);
      BeforeIsTotal(x, m);
      if Before(x, m) {
        forall k | k in names ensures k == x || Before(x, k) {
          if k in rest && k != m { BeforeIsTransitive(x, m, k); }
        }
      } else {
        assert forall k | k in names :: k == m || Before(m, k);
      }
    }
  }

  /** The items listed so far are sorted, come before the names still to list, and are the map's. */
  ghost predicate SortedSoFar(children: map<string, ProjectedVirtualDir>, names: set<string>,
                              items: seq<ProjectedVirtualDir>) {
    && names <= children.Keys
    && (forall i, j | 0 <= i < j < |items| :: Before(items[i].name, items[j].name))
    && (forall i | 0 <= i < |items| :: items[i].name in children && children[items[i].name] == items[i])
    && (forall i, k | 0 <= i < |items| && k in names :: Before(items[i].name, k))
    && (forall name | name in children && name !in names :: Listed(items, name))
  }

  lemma ListOneMore(children: map<string, ProjectedVirtualDir>, names: set<string>, items: seq<ProjectedVirtualDir>,
                    next: string)
    requires forall name | name in children :: children[name].name == name
    requires SortedSoFar(children, names, items) && next in names && forall k | k in names ::
             k == next || Before(next, k)
    ensures SortedSoFar(children, names - {next}, items + [children[next]])
  {
    hide Before;
    var items' := items + [children[next]];
    forall name | name in children && name !in names - {next} ensures Listed(items', name) {
      if name == next {
        assert items'[|items|].name == name;
      } else {
        var i :| 0 <= i < |items| && items[i].name == name;
        assert items'[i].name == name;
      }
    }
  }

  /** The map's values, sorted by name as `sort.Slice` does. */
  method SortedItems(children: map<string, ProjectedVirtualDir>) returns (items: seq<ProjectedVirtualDir>)
    requires forall name | name in children :: children[name].name == name
    ensures SortedSoFar(children, {}, items)
  {
    hide Before, SortedSoFar;
    items := [];
    var names := children.Keys;
    SortStart(children);
    while names != {}
      invariant SortedSoFar(children, names, items)
      decreases |names|
    {
      LeastExists(names);
      var next :| next in names && forall k | k in names :: k == next || Before(next, k);
      ListOneMore(children, names, items, next);
      NamesAreKeys(children, names, items);
      items := items + [children[next]];
      names := names - {next};
    }
  }

  lemma SortStart(children: map<string, ProjectedVirtualDir>)
    ensures SortedSoFar(children, children.Keys, [])
  {
  }

  lemma NamesAreKeys(children: map<string, ProjectedVirtualDir>, names: set<string>, items: seq<ProjectedVirtualDir>)
    requires SortedSoFar(children, names, items)
    ensures names <= children.Keys
  {
  }

  // ---- Walking --------------------------------------------------------------------------------

  /** The projection of a prefix leaves no choice. */
  ghost predicate Shows(prefix: string, mounts: seq<MountEntry>, name: string, isMountPoint: bool) {
    forall items | Projects(prefix, mounts, items) ::
      exists i | 0 <= i < |items| :: items[i] == ProjectedVirtualDir(name, JoinVirtualPath(prefix, name), isMountPoint)
  }

  lemma ShownNext(prefix: string, mounts: seq<MountEntry>, name: string, items: seq<ProjectedVirtualDir>)
    requires Projects(prefix, mounts, items) && LeadsTo(prefix, mounts, |mounts|, name)
    ensures exists i | 0 <= i < |items| ::
              items[i] == ProjectedVirtualDir(name, JoinVirtualPath(prefix, name),
                                              MountedAt(mounts, |mounts|, JoinVirtualPath(prefix, name)))
  {
    hide LeadsTo, MountedAt, JoinVirtualPath, Before;
    var i :| 0 <= i < |items| && items[i].name == name;
    assert items[i] == ProjectedVirtualDir(name, JoinVirtualPath(prefix, name),
                                           MountedAt(mounts, |mounts|, JoinVirtualPath(prefix, name)));
  }

  /** Walking projections from "/" reaches every mount: each ancestor shows the next segment, as a plain
      directory or a mount point, and the last step shows the mount point. */
  lemma EveryMountIsReached(mounts: seq<MountEntry>, i: nat, depth: nat)
    requires MountsAreCanonical(mounts) && i < |mounts| && depth < |Segments(mounts[i].mountPath)|
    ensures
      var segs := Segments(mounts[i].mountPath);
      var prefix := Render(segs[..depth]);
      && IsCanonical(prefix) && JoinVirtualPath(prefix, segs[depth]) == Render(segs[..depth + 1])
      && Shows(prefix, mounts, segs[depth], MountedAt(mounts, |mounts|, Render(segs[..depth + 1])))
      && (depth + 1 == |segs| ==> Render(segs[..depth + 1]) == mounts[i].mountPath
                                  && Shows(prefix, mounts, segs[depth], true))
  {
    hide Projects, LeadsTo, MountedAt, JoinVirtualPath, NextSegment, IsCanonical, Segments, Shows;
    var segs := Segments(mounts[i].mountPath);
    var prefix := Render(segs[..depth]);
    StepTowards(mounts[i].mountPath, depth);
    LeadsHere(prefix, mounts, i, segs[depth]);
    if depth + 1 == |segs| { MountIsThere(mounts, i); }
    NextIsShown(prefix, mounts, segs[depth]);
  }

  /** One step along a canonical path. */
  lemma StepTowards(path: string, depth: nat)
    requires IsCanonical(path) && depth < |Segments(path)|
    ensures
      var segs := Segments(path);
      && IsCanonical(Render(segs[..depth])) && NextSegment(Render(segs[..depth]), path, segs[depth])
      && JoinVirtualPath(Render(segs[..depth]), segs[depth]) == Render(segs[..depth + 1])
      && (depth + 1 == |segs| ==> Render(segs[..depth + 1]) == path)
  {
    var segs := Segments(path);
    CanonicalSegments(path);
    CanonicalRender(segs[..depth]);
    assert segs[..depth + 1] == segs[..depth] + [segs[depth]];
    JoinIsRender(Render(segs[..depth]), segs[depth]);
    if depth + 1 == |segs| { assert segs[..depth + 1] == segs; }
  }

  lemma MountIsThere(mounts: seq<MountEntry>, i: nat)
    requires i < |mounts|
    ensures MountedAt(mounts, |mounts|, mounts[i].mountPath)
  {
  }

  lemma NextIsShown(prefix: string, mounts: seq<MountEntry>, name: string)
    requires LeadsTo(prefix, mounts, |mounts|, name)
    ensures Shows(prefix, mounts, name, MountedAt(mounts, |mounts|, JoinVirtualPath(prefix, name)))
  {
    hide Projects, LeadsTo, MountedAt, JoinVirtualPath;
    forall items | Projects(prefix, mounts, items)
      ensures exists k | 0 <= k < |items| ::
                items[k] == ProjectedVirtualDir(name, JoinVirtualPath(prefix, name),
                                                MountedAt(mounts, |mounts|, JoinVirtualPath(prefix, name)))
    {
      ShownNext(prefix, mounts, name, items);
    }
  }

  /** A path is purely virtual exactly when no mount encloses it and its projection is not empty. */
  lemma PureVirtualIsProjected(virtualPath: string, mounts: seq<MountEntry>, r: Result<ResolvedPath>,
                               items: seq<ProjectedVirtualDir>)
    requires MountsAreCanonical(mounts) && NormalizeVirtualPath(virtualPath).Ok?
    requires Resolves(virtualPath, mounts, r)
    requires Projects(NormalizeVirtualPath(virtualPath).value, mounts, items)
    ensures r.Ok?
    ensures r.value.isPureVirtual <==>
              (forall i | 0 <= i < |mounts| :: !IsSubPath(mounts[i].mountPath, NormalizeVirtualPath(virtualPath).value))
                && items != []
  {
    var p := NormalizeVirtualPath(virtualPath).value;
    forall i | 0 <= i < |mounts| ensures NormalizeVirtualPath(mounts[i].mountPath) == Ok(mounts[i].mountPath) {
      CanonicalIsFixpoint(mounts[i].mountPath);
    }
    SubPathIsPartialOrder(p, p, p);
    EnclosedOrLeading(p, mounts, items);
    hide IsSubPath, IsCanonical, MergeMountAndInnerPath, IsDeepest, Projects;
    assert forall i | 0 <= i < |mounts| :: Encloses(mounts, i, p) <==> IsSubPath(mounts[i].mountPath, p);
    assert forall i | 0 <= i < |mounts| :: MountPathAt(mounts, i) == mounts[i].mountPath;
    hide NormalizeVirtualPath, Encloses;
    if !r.value.isRealMount {
      assert forall i | 0 <= i < |mounts| && IsSubPath(p, mounts[i].mountPath) :: mounts[i].mountPath != p;
    }
  }

  lemma EnclosedOrLeading(p: string, mounts: seq<MountEntry>, items: seq<ProjectedVirtualDir>)
    requires MountsAreCanonical(mounts) && IsCanonical(p) && Projects(p, mounts, items)
    ensures items != [] <==> exists i | 0 <= i < |mounts| ::
            IsSubPath(p, mounts[i].mountPath) && mounts[i].mountPath != p
  {
    hide IsSubPath, IsCanonical, JoinVirtualPath, MountedAt, LeadsTo, NextSegment;
    if items != [] {
      ItemIsListed(items, 0);
      LeadsSomewhere(p, mounts, items[0].name);
    }
    if i :| 0 <= i < |mounts| && IsSubPath(p, mounts[i].mountPath) && mounts[i].mountPath != p {
      CutIsNextSegment(p, mounts[i].mountPath);
      var name := FirstPart(TrimPrefix(TrimPrefix(mounts[i].mountPath, p), "/"));
      LeadsHere(p, mounts, i, name);
    }
  }

  lemma LeadsSomewhere(prefix: string, mounts: seq<MountEntry>, name: string)
    requires IsCanonical(prefix) && MountsAreCanonical(mounts) && LeadsTo(prefix, mounts, |mounts|, name)
    ensures exists i | 0 <= i < |mounts| :: IsSubPath(prefix, mounts[i].mountPath) && mounts[i].mountPath != prefix
  {
    var i :| 0 <= i < |mounts| && NextSegment(prefix, mounts[i].mountPath, name);
    SubPathIsSegmentPrefix(prefix, mounts[i].mountPath);
  }

  lemma LeadsHere(prefix: string, mounts: seq<MountEntry>, i: nat, name: string)
    requires i < |mounts| && NextSegment(prefix, mounts[i].mountPath, name)
    ensures LeadsTo(prefix, mounts, |mounts|, name)
  {
  }
}

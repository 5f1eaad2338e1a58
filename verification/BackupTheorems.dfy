/** What survives an export and an import. */
module BackupTheorems {
  import opened Wrappers
  import opened Ids
  import opened Text
  import opened ConfigModel
  import opened Backup

  // ---------------------------------------------------------------- one row there and back

  lemma TextsBack(xs: seq<string>)
    requires NormalTexts(xs)
    ensures Trims(xs) == xs
  {
    TrimsTrim(xs);
  }

  lemma SubBack(s: SubRow, at: Site)
    requires NormalSub(s)
    ensures SubOf(Some(SubDtoOf(s)), at) == s
  {
    TrimTrims(s.id);
    TrimTrims(s.name);
    TrimTrims(s.url);
    TrimTrims(s.groupId);
    TextsBack(s.text);
  }

  lemma GroupBack(g: GroupRec, at: Site)
    requires NormalGroup(g)
    ensures GroupOf(Some(GroupDtoOf(g)), at) == g
  {
    TrimTrims(g.id);
    TrimTrims(g.name);
    TrimTrims(g.subscriptionId);
    TextsBack(g.text);
    IdListIsNormal(g.nodeIds);
    IdListIsNormal(g.groupIds);
    IdListIsNormal(g.exits);
  }

  lemma {:induction false} KindsBack(ms: seq<Member>)
    requires forall m :: m in ms ==> Trimmed(m.id)
    ensures KnownKinds(DtoMembers(ms)) == ms
  {
    if |ms| > 0 {
      var dtos := DtoMembers(ms);
      assert dtos[1..] == DtoMembers(ms[1..]);
      KindsBack(ms[1..]);
      assert ms[0] in ms;
      TrimTrims(ms[0].id);
      assert ms == [ms[0]] + ms[1..];
    }
  }

  lemma NodeBack(n: NodeRec, groups: seq<GroupRec>, at: Site)
    requires NormalNode(n)
    ensures NodeOf(Some(NodeDtoOf(n, groups)), at) == n
  {
    TrimTrims(n.id);
    TrimTrims(n.name);
    TrimTrims(n.server);
    TrimTrims(n.subscriptionId);
    TrimTrims(n.groupId);
    TextsBack(n.text);
    KindsBack(n.members);
    if n.members == [] {
      assert NodeIdsOf(n.members) == [];
      assert Trims([]) == [];
      assert AsNodeMembers(IdList([])) == [];
    }
  }

  /** Visiting a map meets every key. */
  ghost predicate Visits(at: Site) {
    forall m :: SetOf(at.visit(m)) == m.Keys
  }

  /** What the visited keys leave: a group has an entry exactly when some key trims to it and says more than to
      inherit, and the entry is that of such a key. */
  lemma {:induction false} OverridesContents(m: map<string, Override>, keys: seq<string>)
    ensures forall key :: key in keys && Says(m, key) ==> Trim(key) in OverridesOf(m, keys)
    ensures forall g :: g in OverridesOf(m, keys) ==> Given(m, keys, g, OverridesOf(m, keys)[g])
    decreases |keys|
  {
    if |keys| > 0 {
      var init, last := keys[..|keys| - 1], keys[|keys| - 1];
      OverridesContents(m, init);
      var head := OverridesOf(m, init);
      assert keys == init + [last];
      var r := OverridesOf(m, keys);
      forall g | g in r
        ensures Given(m, keys, g, r[g])
      {
        if Says(m, last) && Trim(last) == g {
          assert last in keys;
        } else {
          assert g in head && r[g] == head[g];
          assert Given(m, init, g, head[g]);
          var key :| key in init && Says(m, key) && Trim(key) == g && m[key] == head[g];
          assert key in keys;
        }
      }
    }
  }

  /** Some key in keys gives the group this strategy. */
  ghost predicate Given(m: map<string, Override>, keys: seq<string>, g: Id, o: Override) {
    exists key :: key in keys && Says(m, key) && Trim(key) == g && m[key] == o
  }

  predicate Says(m: map<string, Override>, key: string) {
    key in m && Trim(key) != "" && m[key] != Inherit
  }

  lemma OverridesBack(m: map<Id, Override>, keys: seq<string>)
    requires SetOf(keys) == m.Keys && forall g :: g in m ==> Trimmed(g) && g != "" && m[g] != Inherit
    ensures OverridesOf(m, keys) == m
  {
    OverridesContents(m, keys);
    forall g | g in m
      ensures Trim(g) == g && g in keys
    {
      TrimTrims(g);
      assert g in SetOf(keys);
    }
    var r := OverridesOf(m, keys);
    forall g | g in r
      ensures g in m && r[g] == m[g]
    {
      assert Given(m, keys, g, r[g]);
      var key :| key in keys && Says(m, key) && Trim(key) == g && m[key] == r[g];
    }
  }

  lemma MappingBack(m: MappingRec, at: Site)
    requires NormalMapping(m, at) && Visits(at)
    ensures MappingOf(Some(MappingDtoOf(m)), at) == m
  {
    TrimTrims(m.id);
    TrimTrims(m.activeNode);
    TrimTrims(m.activeGroup);
    TextsBack(m.text);
    IdListIsNormal(m.nodeIds);
    IdListIsNormal(m.groupIds);
    OverridesBack(m.overrides, at.visit(m.overrides));
  }

  /** Exporting rows in normal form and reading the document again gives the same rows. */
  lemma ExportKeepsRows(r: Rows, at: Site)
    requires Normal(r, at) && Visits(at)
    ensures RowsOf(Export(r), at) == r
  {
    var back := RowsOf(Export(r), at);
    forall i | 0 <= i < |r.subs|
      ensures back.subs[i] == r.subs[i]
    {
      SubBack(r.subs[i], at);
    }
    forall i | 0 <= i < |r.groups|
      ensures back.groups[i] == r.groups[i]
    {
      GroupBack(r.groups[i], at);
    }
    forall i | 0 <= i < |r.nodes|
      ensures back.nodes[i] == r.nodes[i]
    {
      NodeBack(r.nodes[i], r.groups, at);
    }
    forall i | 0 <= i < |r.mappings|
      ensures back.mappings[i] == r.mappings[i]
    {
      MappingBack(r.mappings[i], at);
    }
  }

  lemma {:induction false} HoldingKnown(n: Id, groups: seq<GroupRec>)
    ensures forall g :: g in Holding(n, groups) ==> exists i :: 0 <= i < |groups| && groups[i].id == g
  {
    if |groups| > 0 {
      HoldingKnown(n, groups[1..]);
      forall g | g in Holding(n, groups)
        ensures exists i :: 0 <= i < |groups| && groups[i].id == g
      {
        if g in Holding(n, groups[1..]) {
          var i :| 0 <= i < |groups[1..]| && groups[1..][i].id == g;
          assert groups[i + 1].id == g;
        }
      }
    }
  }

  lemma ExportedListKnown(r: Rows, n: NodeRec, at: Site)
    requires Normal(r, at) && n in r.nodes && (n.groupId != "" ==> n.groupId in GroupIds(r))
    ensures GroupListKnown(Some(NodeDtoOf(n, r.groups)), GroupIds(r))
  {
    HoldingKnown(n.id, r.groups);
    var all := (if n.groupId == "" then [] else [n.groupId]) + Holding(n.id, r.groups);
    UniqueContents(all);
    forall g | g in all
      ensures Trimmed(g) && g in GroupIds(r)
    {
      var i :| (g == n.groupId && g != "" && g in GroupIds(r) && i == 0)
        || (0 <= i < |r.groups| && r.groups[i].id == g);
      if g == n.groupId {
        var k :| 0 <= k < |r.nodes| && r.nodes[k] == n;
        assert NormalNode(r.nodes[k]);
      }
    }
    IdListIsNormal(Unique(all));
  }

  /** A database in normal form exports to a document that can be imported exactly when it has integrity,
      and the import then restores every modelled column of every row. */
  lemma ExportImportsIff(r: Rows, at: Site)
    requires Normal(r, at) && Visits(at)
    ensures RowsOf(Export(r), at) == r
    ensures Wrapping(Export(r), at) && Integrity(RowsOf(Export(r), at)) <==> Integrity(r)
  {
    ExportKeepsRows(r, at);
    if Integrity(r) {
      ExportIsWrapped(r, at);
    }
  }

  lemma ExportIsWrapped(r: Rows, at: Site)
    requires Normal(r, at) && Visits(at) && Integrity(r)
    ensures Wrapping(Export(r), at)
  {
    ExportKeepsRows(r, at);
    var b := Export(r);
    forall i | 0 <= i < |b.nodes|
      ensures GroupListKnown(b.nodes[i], GroupIds(r))
    {
      ExportedListKnown(r, r.nodes[i], at);
    }
    forall i | 0 <= i < |b.mappings|
      ensures OverridesKnown(b.mappings[i])
    {
      assert NormalMapping(r.mappings[i], at) && MappingFine(r.mappings[i], NodeIds(r), GroupIds(r));
      ExportedOverridesKnown(r.mappings[i], at);
    }
  }

  lemma ExportedOverridesKnown(m: MappingRec, at: Site)
    requires NormalMapping(m, at) && forall g :: g in m.overrides ==> g in m.groupIds && m.overrides[g] != Unknown
    ensures OverridesKnown(Some(MappingDtoOf(m)))
  {
    IdListIsNormal(m.groupIds);
    forall g | g in m.overrides
      ensures Trim(g) == g
    {
      TrimTrims(g);
    }
  }

  // ---------------------------------------------------------------- a document there and back

  lemma StampIsNormal(t: Times, now: int)
    requires now != 0
    ensures NormalTimes(Stamp(t, now))
  {
  }

  lemma {:induction false} NormalMembersContents(ms: seq<Member>)
    ensures forall m :: m in NormalMembers(ms) ==> m in ms && m.id != ""
    ensures Distinct(NormalMembers(ms))
  {
    if |ms| > 0 {
      NormalMembersContents(ms[..|ms| - 1]);
    }
  }

  lemma {:induction false} NormalAgain(ms: seq<Member>)
    requires Distinct(ms) && forall m :: m in ms ==> m.id != ""
    ensures NormalMembers(ms) == ms
  {
    if |ms| > 0 {
      var init := ms[..|ms| - 1];
      assert ms == init + [ms[|ms| - 1]];
      NormalAgain(init);
      assert ms[|ms| - 1] in ms;
    }
  }

  lemma {:induction false} KnownKindsTrimmed(ms: seq<MemberDto>)
    ensures forall m :: m in KnownKinds(ms) ==> Trimmed(m.id)
  {
    if |ms| > 0 {
      KnownKindsTrimmed(ms[1..]);
      TrimTrims(ms[0].id);
    }
  }

  lemma NodeIsNormal(o: Option<NodeDto>, at: Site)
    requires at.now != 0
    ensures NormalNode(NodeOf(o, at))
  {
    match o
    case None => StampIsNormal(UNSET, at.now);
    case Some(d) =>
      TrimTrims(d.id);
      TrimTrims(d.name);
      TrimTrims(d.server);
      TrimTrims(d.subscriptionId);
      TrimTrims(d.groupId);
      TrimsTrim(d.text);
      StampIsNormal(d.times, at.now);
      MembersAreNormal(d);
  }

  lemma MembersAreNormal(d: NodeDto)
    ensures var ms := MembersOfDto(d); NormalMembers(ms) == ms && forall m :: m in ms ==> Trimmed(m.id)
  {
    var known := KnownKinds(d.members);
    KnownKindsTrimmed(d.members);
    NormalMembersContents(known);
    IdListIsNormal(d.chainNodeIds);
    NormalAgain(MembersOfDto(d));
  }

  lemma SubIsNormal(o: Option<SubDto>, at: Site)
    requires at.now != 0
    ensures NormalSub(SubOf(o, at))
  {
    match o
    case None => StampIsNormal(UNSET, at.now);
    case Some(d) =>
      TrimTrims(d.id);
      TrimTrims(d.name);
      TrimTrims(d.url);
      TrimTrims(d.groupId);
      TrimsTrim(d.text);
      StampIsNormal(d.times, at.now);
  }

  lemma GroupIsNormal(o: Option<GroupDto>, at: Site)
    requires at.now != 0
    ensures NormalGroup(GroupOf(o, at))
  {
    match o
    case None => StampIsNormal(UNSET, at.now);
    case Some(d) =>
      TrimTrims(d.id);
      TrimTrims(d.name);
      TrimTrims(d.subscriptionId);
      TrimsTrim(d.text);
      StampIsNormal(d.times, at.now);
      IdListIsNormal(d.nodeIds);
      IdListIsNormal(d.groupIds);
      IdListIsNormal(d.exits);
  }

  lemma MappingIsNormal(o: Option<MappingDto>, at: Site)
    requires at.now != 0 && Listen(MappingOf(o, at).listen, at.ip) == Some(MappingOf(o, at).listen)
    requires o.Some?
    ensures NormalMapping(MappingOf(o, at), at)
  {
    var d := o.value;
    TrimTrims(d.id);
    TrimTrims(if d.activeNode.Some? then d.activeNode.value else "");
    TrimTrims(if d.activeGroup.Some? then d.activeGroup.value else "");
    TrimsTrim(d.text);
    StampIsNormal(d.times, at.now);
    IdListIsNormal(d.nodeIds);
    IdListIsNormal(d.groupIds);
    OverridesAreNormal(d.overrides, at.visit(d.overrides));
  }

  lemma OverridesAreNormal(m: map<string, Override>, keys: seq<string>)
    ensures forall g :: g in OverridesOf(m, keys) ==> Trimmed(g) && g != "" && OverridesOf(m, keys)[g] != Inherit
  {
    OverridesContents(m, keys);
    forall g | g in OverridesOf(m, keys)
      ensures Trimmed(g) && g != "" && OverridesOf(m, keys)[g] != Inherit
    {
      assert Given(m, keys, g, OverridesOf(m, keys)[g]);
      var key :| key in keys && Says(m, key) && Trim(key) == g && m[key] == OverridesOf(m, keys)[g];
      TrimTrims(key);
    }
  }

  // ---------------------------------------------------------------- keys that trim to one group

  /** An order in which all keys of a map are visited, each once. */
  ghost predicate Visit(m: map<string, Override>, keys: seq<string>) {
    Distinct(keys) && SetOf(keys) == m.Keys
  }

  /** Two keys that trim to one group say the same, unless one of them is to inherit. */
  ghost predicate KeysAgree(m: map<string, Override>) {
    forall j, k :: Says(m, j) && Says(m, k) && Trim(j) == Trim(k) ==> m[j] == m[k]
  }

  /** What a mapping's strategy overrides are read as does not depend on the order in which their keys happen to be
      visited, if and only if keys that trim to one group agree. */
  lemma OverridesOrderFreeIff(m: map<string, Override>)
    ensures (forall v, w :: Visit(m, v) && Visit(m, w) ==> OverridesOf(m, v) == OverridesOf(m, w)) <==> KeysAgree(m)
  {
    if KeysAgree(m) {
      forall v, w | Visit(m, v) && Visit(m, w)
        ensures OverridesOf(m, v) == OverridesOf(m, w)
      {
        SameOverrides(m, v, w);
        SameOverrides(m, w, v);
      }
    } else {
      var j, k :| Says(m, j) && Says(m, k) && Trim(j) == Trim(k) && m[j] != m[k];
      var v := LastOf(m, j);
      var w := LastOf(m, k);
    }
  }

  lemma SameOverrides(m: map<string, Override>, v: seq<string>, w: seq<string>)
    requires Visit(m, v) && Visit(m, w) && KeysAgree(m)
    ensures forall g :: g in OverridesOf(m, v) ==>
              g in OverridesOf(m, w) && OverridesOf(m, v)[g] == OverridesOf(m, w)[g]
  {
    OverridesContents(m, v);
    OverridesContents(m, w);
    forall g | g in OverridesOf(m, v)
      ensures g in OverridesOf(m, w) && OverridesOf(m, v)[g] == OverridesOf(m, w)[g]
    {
      assert Given(m, v, g, OverridesOf(m, v)[g]);
      var j :| j in v && Says(m, j) && Trim(j) == g && m[j] == OverridesOf(m, v)[g];
      assert j in SetOf(w);
      assert Given(m, w, g, OverridesOf(m, w)[g]);
      var k :| k in w && Says(m, k) && Trim(k) == g && m[k] == OverridesOf(m, w)[g];
    }
  }

  /** Some order visits a given key last, and its entry stays. */
  lemma LastOf(m: map<string, Override>, key: string) returns (keys: seq<string>)
    requires Says(m, key)
    ensures Visit(m, keys) && Trim(key) in OverridesOf(m, keys) && OverridesOf(m, keys)[Trim(key)] == m[key]
  {
    var rest := InSomeOrder(m.Keys - {key});
    keys := rest + [key];
    assert keys[..|keys| - 1] == rest;
    assert SetOf(keys) == SetOf(rest) + {key};
    assert forall i :: 0 <= i < |rest| ==> rest[i] in SetOf(rest);
  }

  lemma {:induction false} InSomeOrder(s: set<string>) returns (keys: seq<string>)
    ensures Distinct(keys) && SetOf(keys) == s
    decreases s
  {
    if s == {} {
      keys := [];
    } else {
      var x :| x in s;
      var rest := InSomeOrder(s - {x});
      keys := rest + [x];
      assert SetOf(keys) == SetOf(rest) + {x};
      assert forall i :: 0 <= i < |rest| ==> rest[i] in SetOf(rest);
    }
  }

  /** Two spellings of one group with different strategies, both accepted. */
  lemma OverrideDependsOnOrder()
    ensures var m := map["g" := LoadBalance, "g " := AtRandom];
            && Visit(m, ["g", "g "]) && Visit(m, ["g ", "g"])
            && OverridesOf(m, ["g", "g "]) == map["g" := AtRandom]
            && OverridesOf(m, ["g ", "g"]) == map["g" := LoadBalance]
  {
    var m := map["g" := LoadBalance, "g " := AtRandom];
    TrimTrims("g");
    assert "g "[1..] == " " && "g "[..1] == "g";
    assert Trim("g ") == "g";
    assert ["g", "g "][..1] == ["g"] && ["g ", "g"][..1] == ["g "] && ["g"][..0] == [] && ["g "][..0] == [];
    assert OverridesOf(m, []) == map[];
    assert OverridesOf(m, ["g"]) == map["g" := LoadBalance];
    assert OverridesOf(m, ["g "]) == map["g" := AtRandom];
  }

  /** The printed listen address reads back as itself. */
  predicate Settled(m: MappingRec, at: Site) {
    Listen(m.listen, at.ip) == Some(m.listen)
  }

  /** An accepted document leaves rows that exporting and importing again changes nothing in, exactly when the
      addresses its mappings listen on read back as they are printed. */
  lemma ImportExportImportIff(b: Document, at: Site, later: Site)
    requires at.now != 0 && later.ip == at.ip && Visits(later)
    requires Wrapping(b, at) && Integrity(RowsOf(b, at))
    ensures var r := RowsOf(b, at);
            RowsOf(Export(r), later) == r <==> forall i :: 0 <= i < |r.mappings| ==> Settled(r.mappings[i], at)
    ensures var r := RowsOf(b, at);
            RowsOf(Export(r), later) == r ==> Normal(r, later) && Wrapping(Export(r), later)
  {
    var r := RowsOf(b, at);
    var back := RowsOf(Export(r), later);
    if forall i :: 0 <= i < |r.mappings| ==> Settled(r.mappings[i], at) {
      SettledRowsAreNormal(b, at, later);
      ExportImportsIff(r, later);
    } else {
      var i :| 0 <= i < |r.mappings| && !Settled(r.mappings[i], at);
      assert MappingFine(r.mappings[i], NodeIds(r), GroupIds(r));
      UnsettledChanges(r.mappings[i], at, later);
      assert back.mappings[i] != r.mappings[i];
    }
  }

  lemma UnsettledChanges(m: MappingRec, at: Site, later: Site)
    requires later.ip == at.ip && m.listen != "" && !Settled(m, at)
    ensures MappingOf(Some(MappingDtoOf(m)), later) != m
  {
  }

  lemma SettledRowsAreNormal(b: Document, at: Site, later: Site)
    requires at.now != 0 && later.ip == at.ip && Integrity(RowsOf(b, at))
    requires forall i :: 0 <= i < |RowsOf(b, at).mappings| ==> Settled(RowsOf(b, at).mappings[i], at)
    ensures Normal(RowsOf(b, at), later)
  {
    var r := RowsOf(b, at);
    forall i | 0 <= i < |r.subs|
      ensures NormalSub(r.subs[i])
    {
      SubIsNormal(b.subs[i], at);
    }
    forall i | 0 <= i < |r.groups|
      ensures NormalGroup(r.groups[i])
    {
      GroupIsNormal(b.groups[i], at);
    }
    forall i | 0 <= i < |r.nodes|
      ensures NormalNode(r.nodes[i])
    {
      NodeIsNormal(b.nodes[i], at);
    }
    forall i | 0 <= i < |r.mappings|
      ensures NormalMapping(r.mappings[i], later)
    {
      assert MappingFine(r.mappings[i], NodeIds(r), GroupIds(r));
      MappingIsNormal(b.mappings[i], at);
    }
  }

  // ---------------------------------------------------------------- what a restore stores

  lemma {:induction false} NodesAllStored(nodes: seq<NodeRec>)
    requires forall i, j :: 0 <= i < j < |nodes| ==> nodes[i].id != nodes[j].id
    ensures forall i :: 0 <= i < |nodes| ==>
              nodes[i].id in NodeTable(nodes) && NodeTable(nodes)[nodes[i].id] == nodes[i]
  {
    if |nodes| > 0 {
      var init := nodes[..|nodes| - 1];
      NodesAllStored(init);
      NodeTableKeys(init);
      forall i | 0 <= i < |nodes|
        ensures nodes[i].id in NodeTable(nodes) && NodeTable(nodes)[nodes[i].id] == nodes[i]
      {
        if i < |init| {
          assert init[i] == nodes[i];
        }
      }
    }
  }

  lemma {:induction false} MappingTableContents(ms: seq<MappingRec>)
    ensures forall x :: x in MappingTable(ms) ==> exists i ::
              0 <= i < |ms| && ms[i] == MappingTable(ms)[x] && ms[i].id == x
  {
    if |ms| > 0 {
      var init := ms[..|ms| - 1];
      MappingTableContents(init);
      forall x | x in MappingTable(ms)
        ensures exists i :: 0 <= i < |ms| && ms[i] == MappingTable(ms)[x] && ms[i].id == x
      {
        if x in MappingTable(init) {
          var i :| 0 <= i < |init| && init[i] == MappingTable(init)[x] && init[i].id == x;
          assert ms[i] == init[i];
        } else {
          assert ms[|ms| - 1].id == x;
        }
      }
    }
  }

  ghost predicate AllStored(ms: seq<MappingRec>) {
    forall i :: 0 <= i < |ms| ==> ms[i].id in MappingTable(ms) && MappingTable(ms)[ms[i].id] == ms[i]
  }

  lemma {:induction false} DistinctMappingsStored(ms: seq<MappingRec>)
    requires forall i, j :: 0 <= i < j < |ms| ==> ms[i].port != ms[j].port && ms[i].id != ms[j].id
    ensures AllStored(ms)
  {
    if |ms| > 0 {
      var init, last := ms[..|ms| - 1], ms[|ms| - 1];
      DistinctMappingsStored(init);
      MappingTableContents(init);
      forall x | x in MappingTable(init)
        ensures x != last.id && MappingTable(init)[x].port != last.port
      {
        var i :| 0 <= i < |init| && init[i] == MappingTable(init)[x] && init[i].id == x;
        assert ms[i] == init[i];
      }
      forall i | 0 <= i < |ms|
        ensures ms[i].id in MappingTable(ms) && MappingTable(ms)[ms[i].id] == ms[i]
      {
        if i < |init| {
          assert init[i] == ms[i];
        }
      }
    }
  }

  /** Listen ports are checked, mapping identifiers are not: the restore keeps every accepted mapping exactly
      when their identifiers differ, and silently drops one otherwise. */
  lemma RestoreKeepsMappingsIff(r: Rows)
    requires Integrity(r)
    ensures AllStored(r.mappings) <==> forall i, j :: 0 <= i < j < |r.mappings| ==> r.mappings[i].id != r.mappings[j].id
  {
    var ms := r.mappings;
    if forall i, j :: 0 <= i < j < |ms| ==> ms[i].id != ms[j].id {
      DistinctMappingsStored(ms);
    } else {
      var i, j :| 0 <= i < j < |ms| && ms[i].id == ms[j].id;
      assert ms[i] != ms[j];
    }
  }

  /** Two mappings under one identifier, on different ports, routed nowhere. */
  function TwinMapping(port: nat): MappingRec {
    MappingRec("m", "127.0.0.1", port, 1, [], "", [], "", map[], [], Times(1, 1))
  }

  function Twins(): Rows {
    Rows([], [], [], [TwinMapping(1080), TwinMapping(1081)])
  }

  lemma DuplicateMappingDropped(at: Site)
    requires at.ip("127.0.0.1") == Some("127.0.0.1")
    ensures Integrity(Twins()) && Normal(Twins(), at) && !AllStored(Twins().mappings)
  {
    TwinsHaveIntegrity(at);
    var ms := Twins().mappings;
    assert ms[0].id == ms[1].id && ms[0].port != ms[1].port;
  }

  lemma TwinFits(port: nat, at: Site)
    requires port != 0 && at.ip("127.0.0.1") == Some("127.0.0.1")
    ensures MappingFine(TwinMapping(port), {}, {}) && NormalMapping(TwinMapping(port), at)
  {
    TrimTrims("127.0.0.1");
    TrimTrims("m");
    TrimTrims("");
    assert |Fold("127.0.0.1")| == 9 && |"localhost"| == 9 && Fold("127.0.0.1")[0] == '1';
  }

  lemma NoNodesIsValid(r: Rows)
    requires r.nodes == []
    ensures Valid(DbOf(r))
  {
    assert DbOf(r).nodes == map[];
  }

  lemma TwinsHaveIntegrity(at: Site)
    requires at.ip("127.0.0.1") == Some("127.0.0.1")
    ensures Integrity(Twins()) && Normal(Twins(), at)
  {
    TwinFits(1080, at);
    TwinFits(1081, at);
    NoNodesIsValid(Twins());
    TwinsAlone(Twins());
  }

  lemma TwinsAlone(r: Rows)
    requires r.subs == [] && r.groups == [] && r.nodes == [] && |r.mappings| == 2 && Valid(DbOf(r))
    requires r.mappings[0].port != r.mappings[1].port
    requires MappingFine(r.mappings[0], {}, {}) && MappingFine(r.mappings[1], {}, {})
    ensures Integrity(r)
  {
    assert NodeIds(r) == {} && GroupIds(r) == {};
  }

  /** Every node of an accepted document is restored, and the restored tables keep the chain-group invariant. */
  lemma RestoreIsValid(r: Rows)
    requires Integrity(r)
    ensures Valid(DbOf(r))
    ensures forall i :: 0 <= i < |r.nodes| ==>
              r.nodes[i].id in DbOf(r).nodes && DbOf(r).nodes[r.nodes[i].id] == NodeRowOf(r.nodes[i])
  {
    NodesAllStored(r.nodes);
  }
}

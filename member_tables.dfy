/**
 * The mapping table of a (source type, destination type) pair: FillMemberInfo
 * and AddMember. The table is a Dictionary<MemberInfo, MemberInfo> keyed by
 * the source member; it is modelled as the sequence of its entries in
 * insertion order, which is the order a Dictionary without removals
 * enumerates them in.
 */
module MemberTables {
  import opened Outcomes
  import opened Reflection

  /** One table entry: the source member (the key) and the destination member it is copied into. */
  datatype Pairing = Pairing(source: Member, dest: Member)

  /** `sources.FirstOrDefault(x => x.Name == name)`. */
  function FirstByName(sources: seq<Member>, name: string): Option<Member>
  {
    if |sources| == 0 then None
    else if sources[0].name == name then Some(sources[0])
    else FirstByName(sources[1..], name)
  }

  /** The lookup finds a member exactly when one has the name, and then the first such. */
  lemma {:induction false} FirstByNameIsFirstMatch(sources: seq<Member>, name: string)
    ensures FirstByName(sources, name).None? <==> forall i :: 0 <= i < |sources| ==> sources[i].name != name
    ensures FirstByName(sources, name).Some? ==>
      exists i :: 0 <= i < |sources| && sources[i] == FirstByName(sources, name).value && sources[i].name == name &&
                  forall j :: 0 <= j < i ==> sources[j].name != name
  {
    if |sources| > 0 && sources[0].name != name {
      FirstByNameIsFirstMatch(sources[1..], name);
      assert forall i :: 1 <= i < |sources| ==> sources[i] == sources[1..][i - 1];
      if FirstByName(sources, name).Some? {
        var k :| 0 <= k < |sources[1..]| && sources[1..][k] == FirstByName(sources, name).value && sources[1..][k].name == name &&
                 forall j :: 0 <= j < k ==> sources[1..][j].name != name;
        assert sources[k + 1] == sources[1..][k];
      }
    }
  }

  /** The entry AddMember adds for one destination member, if it has a same-named source member. */
  function EntryFor(dest: Member, sources: seq<Member>): seq<Pairing>
  {
    match FirstByName(sources, dest.name)
    case None => []
    case Some(s) => [Pairing(s, dest)]
  }

  /**
   * The entries AddMember would add for `dests`, in order, ignoring the
   * duplicate-key check.
   */
  function Pairings(dests: seq<Member>, sources: seq<Member>): seq<Pairing>
  {
    if |dests| == 0 then []
    else Pairings(dests[..|dests| - 1], sources) + EntryFor(dests[|dests| - 1], sources)
  }

  function SourceKeys(table: seq<Pairing>): set<Member>
  {
    set p | p in table :: p.source
  }

  /** No two entries share a key. */
  predicate DistinctSources(table: seq<Pairing>)
  {
    forall i, j :: 0 <= i < j < |table| ==> table[i].source != table[j].source
  }

  /**
   * FillMemberInfo as a value: field entries, then property entries; the
   * construction throws when two entries would share a source member.
   */
  function BuildTable(u: Universe, sourceType: TypeRef, destType: TypeRef): Outcome<seq<Pairing>>
  {
    var table := Pairings(Fields(u, destType), Fields(u, sourceType)) +
                 Pairings(Properties(u, destType), Properties(u, sourceType));
    if DistinctSources(table) then Ok(table) else Err(Thrown)
  }

  /** The Dictionary<MemberInfo, MemberInfo> that FillMemberInfo fills in place. */
  class MemberMap {
    var entries: seq<Pairing>

    constructor ()
      ensures entries == []
    {
      entries := [];
    }

    /** `Dictionary.Add`: throws (ok false, nothing added) when the key is already present. */
    method Add(key: Member, value: Member) returns (ok: bool)
      modifies this
      ensures ok == (key !in SourceKeys(old(entries)))
      ensures entries == if ok then old(entries) + [Pairing(key, value)] else old(entries)
    {
      ok := key !in SourceKeys(entries);
      if ok {
        entries := entries + [Pairing(key, value)];
      }
    }
  }

  /** AddMember: pairs `member` with the first same-named source member, if any, and adds the entry to `result`. */
  method AddMember(member: Member, sources: seq<Member>, result: MemberMap) returns (ok: bool)
    modifies result
    ensures match FirstByName(sources, member.name)
      case None => ok && result.entries == old(result.entries)
      case Some(s) =>
        ok == (s !in SourceKeys(old(result.entries))) &&
        result.entries == if ok then old(result.entries) + [Pairing(s, member)] else old(result.entries)
  {
    var sourceMember := FirstByName(sources, member.name);
    ok := true;
    if sourceMember.Some? {
      ok := result.Add(sourceMember.value, member);
    }
  }

  /**
   * One foreach loop of FillMemberInfo: AddMember for every destination
   * member in order. It stops with ok false at the first duplicate key,
   * which happens exactly when the entries would not have distinct keys;
   * the dictionary then holds the entries added before the throw, and
   * FillMemberInfo discards it.
   */
  method AddMembers(dests: seq<Member>, sources: seq<Member>, result: MemberMap) returns (ok: bool)
    requires DistinctSources(result.entries)
    modifies result
    ensures ok == DistinctSources(old(result.entries) + Pairings(dests, sources))
    ensures ok ==> result.entries == old(result.entries) + Pairings(dests, sources)
    ensures !ok ==> exists k :: 0 <= k < |dests| && result.entries == old(result.entries) + Pairings(dests[..k], sources)
  {
    ghost var start := result.entries;
    for i := 0 to |dests|
      invariant result.entries == start + Pairings(dests[..i], sources)
      invariant DistinctSources(result.entries)
    {
      ghost var before := result.entries;
      ok := AddMember(dests[i], sources, result);
      PairingsSnoc(dests, i, sources);
      assert before + EntryFor(dests[i], sources) == start + Pairings(dests[..i + 1], sources);
      if !ok {
        AddingKnownKeyBreaksDistinctness(before, EntryFor(dests[i], sources)[0]);
        DuplicateSurvivesLaterMembers(start, dests, i + 1, sources);
        assert result.entries == start + Pairings(dests[..i], sources);
        return false;
      }
      if EntryFor(dests[i], sources) != [] {
        AddingFreshKeyKeepsDistinctness(before, EntryFor(dests[i], sources)[0]);
      }
    }
    assert dests[..|dests|] == dests;
    ok := true;
  }

  /** FillMemberInfo: destination fields against source fields, then destination properties against source properties. */
  method FillMemberInfo(u: Universe, sourceType: TypeRef, destType: TypeRef) returns (r: Outcome<seq<Pairing>>)
    ensures r == BuildTable(u, sourceType, destType)
  {
    var result := new MemberMap();
    var fieldTable := Pairings(Fields(u, destType), Fields(u, sourceType));
    var propertyTable := Pairings(Properties(u, destType), Properties(u, sourceType));
    var ok := AddMembers(Fields(u, destType), Fields(u, sourceType), result);
    assert [] + fieldTable == fieldTable;
    if !ok {
      NotDistinctExtends(fieldTable, propertyTable);
      return Err(Thrown);
    }
    ok := AddMembers(Properties(u, destType), Properties(u, sourceType), result);
    if !ok {
      return Err(Thrown);
    }
    r := Ok(result.entries);
  }

  lemma PairingsSnoc(dests: seq<Member>, i: nat, sources: seq<Member>)
    requires i < |dests|
    ensures Pairings(dests[..i + 1], sources) == Pairings(dests[..i], sources) + EntryFor(dests[i], sources)
  {
    assert dests[..i + 1][..i] == dests[..i];
  }

  lemma DuplicateSurvivesLaterMembers(start: seq<Pairing>, dests: seq<Member>, k: nat, sources: seq<Member>)
    requires k <= |dests|
    requires !DistinctSources(start + Pairings(dests[..k], sources))
    ensures !DistinctSources(start + Pairings(dests, sources))
  {
    PairingsAppend(dests[..k], dests[k..], sources);
    assert dests[..k] + dests[k..] == dests;
    NotDistinctExtends(start + Pairings(dests[..k], sources), Pairings(dests[k..], sources));
    assert start + Pairings(dests, sources) == (start + Pairings(dests[..k], sources)) + Pairings(dests[k..], sources);
  }

  /** Table order follows destination order: the entries for `a + b` are those for `a` followed by those for `b`. */
  lemma {:induction false} PairingsAppend(a: seq<Member>, b: seq<Member>, sources: seq<Member>)
    ensures Pairings(a + b, sources) == Pairings(a, sources) + Pairings(b, sources)
    decreases |b|
  {
    if |b| == 0 {
      assert a + b == a;
    } else {
      var ab := a + b;
      var b' := b[..|b| - 1];
      assert ab[..|ab| - 1] == a + b';
      assert ab[|ab| - 1] == b[|b| - 1];
      PairingsAppend(a, b', sources);
      calc {
        Pairings(ab, sources);
        Pairings(a + b', sources) + EntryFor(b[|b| - 1], sources);
        Pairings(a, sources) + Pairings(b', sources) + EntryFor(b[|b| - 1], sources);
        Pairings(a, sources) + (Pairings(b', sources) + EntryFor(b[|b| - 1], sources));
        Pairings(a, sources) + Pairings(b, sources);
      }
    }
  }

  lemma NotDistinctExtends(t1: seq<Pairing>, t2: seq<Pairing>)
    requires !DistinctSources(t1)
    ensures !DistinctSources(t1 + t2)
  {
    var i, j :| 0 <= i < j < |t1| && t1[i].source == t1[j].source;
    assert (t1 + t2)[i] == t1[i] && (t1 + t2)[j] == t1[j];
  }

  lemma AddingKnownKeyBreaksDistinctness(t: seq<Pairing>, p: Pairing)
    requires p.source in SourceKeys(t)
    ensures !DistinctSources(t + [p])
  {
    var q :| q in t && q.source == p.source;
    var i :| 0 <= i < |t| && t[i] == q;
    assert (t + [p])[i] == q && (t + [p])[|t|] == p;
  }

  lemma AddingFreshKeyKeepsDistinctness(t: seq<Pairing>, p: Pairing)
    requires DistinctSources(t)
    requires p.source !in SourceKeys(t)
    ensures DistinctSources(t + [p])
  {
    forall i, j | 0 <= i < j < |t + [p]| ensures (t + [p])[i].source != (t + [p])[j].source {
      if j == |t| {
        assert (t + [p])[i] == t[i] && t[i] in t;
      }
    }
  }

  /** The lookup returns a member carrying the name it looked for. */
  lemma FirstByNameHasName(sources: seq<Member>)
    ensures forall name :: FirstByName(sources, name).Some? ==>
      FirstByName(sources, name).value in sources && FirstByName(sources, name).value.name == name
  {
    forall name | FirstByName(sources, name).Some?
      ensures FirstByName(sources, name).value in sources && FirstByName(sources, name).value.name == name
    {
      FirstByNameIsFirstMatch(sources, name);
    }
  }

  /**
   * Every entry pairs a destination member with the first source member of
   * exactly the same name; the key set is the set of those first matches.
   */
  lemma {:induction false} PairingsSound(dests: seq<Member>, sources: seq<Member>)
    ensures forall p :: p in Pairings(dests, sources) ==>
      p.dest in dests && p.source in sources && p.source.name == p.dest.name &&
      FirstByName(sources, p.dest.name) == Some(p.source)
    ensures forall x :: x in SourceKeys(Pairings(dests, sources)) <==>
      exists i :: 0 <= i < |dests| && FirstByName(sources, dests[i].name) == Some(x)
    decreases |dests|
  {
    if |dests| > 0 {
      var init, last := dests[..|dests| - 1], dests[|dests| - 1];
      PairingsSound(init, sources);
      FirstByNameHasName(sources);
      assert forall i :: 0 <= i < |init| ==> init[i] == dests[i];
      forall x | x in SourceKeys(Pairings(dests, sources))
        ensures exists i :: 0 <= i < |dests| && FirstByName(sources, dests[i].name) == Some(x)
      {
        var p :| p in Pairings(dests, sources) && p.source == x;
        if p !in Pairings(init, sources) {
          assert FirstByName(sources, dests[|dests| - 1].name) == Some(x);
        }
      }
      forall x | exists i :: 0 <= i < |dests| && FirstByName(sources, dests[i].name) == Some(x)
        ensures x in SourceKeys(Pairings(dests, sources))
      {
        var i :| 0 <= i < |dests| && FirstByName(sources, dests[i].name) == Some(x);
        if i < |init| {
          assert x in SourceKeys(Pairings(init, sources));
          var p :| p in Pairings(init, sources) && p.source == x;
          assert p in Pairings(dests, sources);
        } else {
          assert Pairing(x, last) in Pairings(dests, sources);
        }
      }
    }
  }

  /** Every destination member with a same-named source member has its entry, paired with the first such source member. */
  lemma {:induction false} PairingsComplete(dests: seq<Member>, sources: seq<Member>)
    ensures forall d :: d in dests && FirstByName(sources, d.name).Some? ==>
      Pairing(FirstByName(sources, d.name).value, d) in Pairings(dests, sources)
    decreases |dests|
  {
    if |dests| > 0 {
      var init := dests[..|dests| - 1];
      PairingsComplete(init, sources);
      forall d | d in dests && FirstByName(sources, d.name).Some?
        ensures Pairing(FirstByName(sources, d.name).value, d) in Pairings(dests, sources)
      {
        if d != dests[|dests| - 1] {
          var i :| 0 <= i < |dests| && dests[i] == d;
          assert init[i] == d;
        }
      }
    }
  }

  /** Two destination members of one list have the same name, and some source member carries it. */
  predicate SharedSource(dests: seq<Member>, sources: seq<Member>)
  {
    exists i, j :: 0 <= i < j < |dests| && dests[i].name == dests[j].name && FirstByName(sources, dests[i].name).Some?
  }

  /** One list's entries have distinct keys exactly when no two of its destination members share a source member. */
  lemma DistinctPairingsIff(dests: seq<Member>, sources: seq<Member>)
    ensures DistinctSources(Pairings(dests, sources)) <==> !SharedSource(dests, sources)
  {
    if SharedSource(dests, sources) {
      SharedSourceBreaksDistinctness(dests, sources);
    } else {
      NoSharedSourceKeepsDistinctness(dests, sources);
    }
  }

  lemma {:induction false} SharedSourceBreaksDistinctness(dests: seq<Member>, sources: seq<Member>)
    requires SharedSource(dests, sources)
    ensures !DistinctSources(Pairings(dests, sources))
    decreases |dests|
  {
    var init, last := dests[..|dests| - 1], dests[|dests| - 1];
    var pre, entry := Pairings(init, sources), EntryFor(last, sources);
    var i, j :| 0 <= i < j < |dests| && dests[i].name == dests[j].name && FirstByName(sources, dests[i].name).Some?;
    assert init[i] == dests[i];
    if j < |init| {
      assert init[j] == dests[j];
      SharedSourceBreaksDistinctness(init, sources);
      NotDistinctExtends(pre, entry);
    } else {
      PairingsSound(init, sources);
      var x := FirstByName(sources, last.name).value;
      assert FirstByName(sources, init[i].name) == Some(x);
      assert x in SourceKeys(pre);
      AddingKnownKeyBreaksDistinctness(pre, entry[0]);
    }
  }

  lemma {:induction false} NoSharedSourceKeepsDistinctness(dests: seq<Member>, sources: seq<Member>)
    requires !SharedSource(dests, sources)
    ensures DistinctSources(Pairings(dests, sources))
    decreases |dests|
  {
    if |dests| > 0 {
      var init, last := dests[..|dests| - 1], dests[|dests| - 1];
      var pre, entry := Pairings(init, sources), EntryFor(last, sources);
      assert forall i :: 0 <= i < |init| ==> init[i] == dests[i];
      assert !SharedSource(init, sources);
      NoSharedSourceKeepsDistinctness(init, sources);
      if entry != [] {
        var x := entry[0].source;
        assert x !in SourceKeys(pre) by {
          PairingsSound(init, sources);
          FirstByNameHasName(sources);
        }
        AddingFreshKeyKeepsDistinctness(pre, entry[0]);
      }
    }
  }

  /** Tables whose key sets are disjoint concatenate to a table with distinct keys exactly when each has. */
  lemma DistinctConcat(t1: seq<Pairing>, t2: seq<Pairing>)
    requires SourceKeys(t1) !! SourceKeys(t2)
    ensures DistinctSources(t1 + t2) <==> DistinctSources(t1) && DistinctSources(t2)
  {
    if DistinctSources(t1) && DistinctSources(t2) {
      forall i, j | 0 <= i < j < |t1 + t2| ensures (t1 + t2)[i].source != (t1 + t2)[j].source {
        if j < |t1| {
          assert (t1 + t2)[i] == t1[i] && (t1 + t2)[j] == t1[j];
        } else if i < |t1| {
          assert (t1 + t2)[i] == t1[i] && t1[i] in t1 && t1[i].source in SourceKeys(t1);
          assert (t1 + t2)[j] == t2[j - |t1|] && t2[j - |t1|] in t2 && t2[j - |t1|].source in SourceKeys(t2);
        } else {
          assert (t1 + t2)[i] == t2[i - |t1|] && (t1 + t2)[j] == t2[j - |t1|];
        }
      }
    }
    if DistinctSources(t1 + t2) {
      forall i, j | 0 <= i < j < |t2| ensures t2[i].source != t2[j].source {
        assert (t1 + t2)[|t1| + i] == t2[i] && (t1 + t2)[|t1| + j] == t2[j];
      }
      forall i, j | 0 <= i < j < |t1| ensures t1[i].source != t1[j].source {
        assert (t1 + t2)[i] == t1[i] && (t1 + t2)[j] == t1[j];
      }
    }
  }

  /**
   * Table construction throws exactly when two destination fields, or two
   * destination properties, would be paired with the same source member:
   * Dictionary.Add rejects the second key. A field and a property never
   * collide, because fields are only paired with fields and properties with
   * properties.
   */
  lemma BuildTableFailsOnSharedSource(u: Universe, sourceType: TypeRef, destType: TypeRef)
    requires ValidUniverse(u)
    ensures BuildTable(u, sourceType, destType).Err? <==>
      SharedSource(Fields(u, destType), Fields(u, sourceType)) ||
      SharedSource(Properties(u, destType), Properties(u, sourceType))
  {
    var fs, ps := Fields(u, sourceType), Properties(u, sourceType);
    var ft, pt := Pairings(Fields(u, destType), fs), Pairings(Properties(u, destType), ps);
    MemberKindsOf(u, sourceType);
    PairingsSound(Fields(u, destType), fs);
    PairingsSound(Properties(u, destType), ps);
    forall x | x in SourceKeys(ft) ensures x.kind == Field {
      var p :| p in ft && p.source == x;
    }
    forall x | x in SourceKeys(pt) ensures x.kind == Property {
      var p :| p in pt && p.source == x;
    }
    DistinctConcat(ft, pt);
    DistinctPairingsIff(Fields(u, destType), fs);
    DistinctPairingsIff(Properties(u, destType), ps);
  }

  /**
   * A table that was built pairs fields with fields and properties with
   * properties, each destination member of the destination type with the
   * first same-named member of the source type, and no source member twice.
   */
  lemma BuildTableSound(u: Universe, sourceType: TypeRef, destType: TypeRef)
    requires ValidUniverse(u)
    requires BuildTable(u, sourceType, destType).Ok?
    ensures DistinctSources(BuildTable(u, sourceType, destType).value)
    ensures forall p :: p in BuildTable(u, sourceType, destType).value ==>
      p.source.name == p.dest.name && p.source.kind == p.dest.kind &&
      (p.dest.kind == Field ==> p.dest in Fields(u, destType) && FirstByName(Fields(u, sourceType), p.dest.name) == Some(p.source)) &&
      (p.dest.kind == Property ==> p.dest in Properties(u, destType) && FirstByName(Properties(u, sourceType), p.dest.name) == Some(p.source))
  {
    MemberKindsOf(u, sourceType);
    MemberKindsOf(u, destType);
    PairingsSound(Fields(u, destType), Fields(u, sourceType));
    PairingsSound(Properties(u, destType), Properties(u, sourceType));
  }

  /** A table that was built has an entry for every destination field and property that has a same-named counterpart of its kind. */
  lemma BuildTableComplete(u: Universe, sourceType: TypeRef, destType: TypeRef)
    requires BuildTable(u, sourceType, destType).Ok?
    ensures forall d :: d in Fields(u, destType) && FirstByName(Fields(u, sourceType), d.name).Some? ==>
      Pairing(FirstByName(Fields(u, sourceType), d.name).value, d) in BuildTable(u, sourceType, destType).value
    ensures forall d :: d in Properties(u, destType) && FirstByName(Properties(u, sourceType), d.name).Some? ==>
      Pairing(FirstByName(Properties(u, sourceType), d.name).value, d) in BuildTable(u, sourceType, destType).value
  {
    PairingsComplete(Fields(u, destType), Fields(u, sourceType));
    PairingsComplete(Properties(u, destType), Properties(u, sourceType));
  }

  /** No two entries write the same destination member: they differ in kind or in name. */
  predicate DistinctDests(table: seq<Pairing>)
  {
    forall i, j :: 0 <= i < j < |table| ==> table[i].dest.kind != table[j].dest.kind || table[i].dest.name != table[j].dest.name
  }

  /**
   * A table that was built writes each destination member at most once:
   * two entries for one kind and one name would share their source member,
   * which the duplicate-key check rejects.
   */
  lemma BuildTableDistinctDests(u: Universe, sourceType: TypeRef, destType: TypeRef)
    requires ValidUniverse(u)
    requires BuildTable(u, sourceType, destType).Ok?
    ensures DistinctDests(BuildTable(u, sourceType, destType).value)
  {
    var table := BuildTable(u, sourceType, destType).value;
    forall i, j | 0 <= i < j < |table|
      ensures table[i].dest.kind != table[j].dest.kind || table[i].dest.name != table[j].dest.name
    {
      SameDestSameSource(u, sourceType, destType, table[i], table[j]);
    }
  }

  /** In a built table the source member of an entry is determined by the kind and the name of its destination member. */
  lemma SameDestSameSource(u: Universe, sourceType: TypeRef, destType: TypeRef, p: Pairing, q: Pairing)
    requires ValidUniverse(u)
    requires BuildTable(u, sourceType, destType).Ok?
    requires p in BuildTable(u, sourceType, destType).value && q in BuildTable(u, sourceType, destType).value
    ensures p.dest.kind == q.dest.kind && p.dest.name == q.dest.name ==> p.source == q.source
  {
    BuildTableSound(u, sourceType, destType);
  }
}

/**
 * The media processor registry and GetLatestMediaProcessorByName: keep the entries with the
 * requested name, order them by version with a stable sort, and take the last.
 */
module Processors {
  import opened Wrappers
  import opened Versions
  import opened Text
  import opened Faults

  /** A registry entry. Several entries may share a name; the id tells them apart. */
  datatype MediaProcessor = MediaProcessor(id: string, name: string, version: Version)

  function Last<T>(s: seq<T>): T
    requires |s| > 0
  {
    s[|s| - 1]
  }

  /**
   * Reference description of a filtered list: idx holds, in increasing order, exactly the
   * registry positions whose entry has the name, and r lists the entries at those positions.
   */
  predicate Selects(registry: seq<MediaProcessor>, name: string, idx: seq<int>, r: seq<MediaProcessor>)
  {
    && |idx| == |r|
    && (forall k :: 0 <= k < |idx| ==> 0 <= idx[k] < |registry| && registry[idx[k]] == r[k] && r[k].name == name)
    && (forall k, l :: 0 <= k < l < |idx| ==> idx[k] < idx[l])
    && (forall i :: 0 <= i < |registry| && registry[i].name == name ==> i in idx)
  }

  /** Where(p => p.Name == name).ToList(): the entries with exactly that name. */
  function Named(registry: seq<MediaProcessor>, name: string): (r: seq<MediaProcessor>)
    ensures forall p :: p in r <==> p in registry && p.name == name
  {
    if |registry| == 0 then []
    else
      var earlier := registry[..|registry| - 1];
      var p := Last(registry);
      assert registry == earlier + [p];
      Named(earlier, name) + (if p.name == name then [p] else [])
  }

  /** The filter keeps registry order and duplicates: it selects exactly the positions with the name. */
  lemma {:induction false} NamedKeepsOrder(registry: seq<MediaProcessor>, name: string)
    ensures exists idx :: Selects(registry, name, idx, Named(registry, name))
    decreases |registry|
  {
    if |registry| == 0 {
      assert Named(registry, name) == [];
      assert Selects(registry, name, [], Named(registry, name));
    } else {
      var earlier := registry[..|registry| - 1];
      var p := Last(registry);
      assert registry == earlier + [p];
      NamedKeepsOrder(earlier, name);
      var idx :| Selects(earlier, name, idx, Named(earlier, name));
      SelectsExtend(earlier, p, name, idx, Named(earlier, name));
      assert Named(registry, name) == Named(earlier, name) + (if p.name == name then [p] else []);
      assert Selects(registry, name, idx + (if p.name == name then [|earlier|] else []), Named(registry, name));
    }
  }

  /** Appending an entry extends the selection by its position exactly when it has the name. */
  lemma SelectsExtend(earlier: seq<MediaProcessor>, p: MediaProcessor, name: string, idx: seq<int>, r: seq<MediaProcessor>)
    requires Selects(earlier, name, idx, r)
    ensures Selects(earlier + [p], name, idx + (if p.name == name then [|earlier|] else []),
                    r + (if p.name == name then [p] else []))
  {
    var registry := earlier + [p];
    var idx2 := idx + (if p.name == name then [|earlier|] else []);
    var r2 := r + (if p.name == name then [p] else []);
    forall k | 0 <= k < |idx2|
      ensures 0 <= idx2[k] < |registry| && registry[idx2[k]] == r2[k] && r2[k].name == name
    {
      if k < |idx| {
        assert idx2[k] == idx[k] && r2[k] == r[k];
      }
    }
    forall k, l | 0 <= k < l < |idx2| ensures idx2[k] < idx2[l] {
      if l < |idx| {
        assert idx2[k] == idx[k] && idx2[l] == idx[l];
      } else {
        assert idx2[k] == idx[k];
      }
    }
    forall i | 0 <= i < |registry| && registry[i].name == name ensures i in idx2 {
      if i < |earlier| {
        assert registry[i] == earlier[i];
        var k :| 0 <= k < |idx| && idx[k] == i;
        assert idx2[k] == i;
      } else {
        assert idx2[|idx|] == i;
      }
    }
  }

  /** Every entry's version is at most that of each entry after it. */
  predicate SortedByVersion(s: seq<MediaProcessor>)
  {
    forall i, j :: 0 <= i < j < |s| ==> CompareTo(s[i].version, s[j].version) <= 0
  }

  /**
   * One step of a stable insertion sort: p goes in front of the first entry whose version is
   * greater than its own, so it lands behind the entries of equal version already placed.
   */
  function Insert(sorted: seq<MediaProcessor>, p: MediaProcessor): (r: seq<MediaProcessor>)
    ensures multiset(r) == multiset(sorted) + multiset{p}
  {
    if |sorted| == 0 then [p]
    else if CompareTo(p.version, sorted[0].version) < 0 then [p] + sorted
    else
      assert sorted == [sorted[0]] + sorted[1..];
      [sorted[0]] + Insert(sorted[1..], p)
  }

  /** Inserting into a sorted sequence keeps it sorted. */
  lemma {:induction false} InsertSorted(sorted: seq<MediaProcessor>, p: MediaProcessor)
    requires SortedByVersion(sorted)
    ensures SortedByVersion(Insert(sorted, p))
  {
    if |sorted| > 0 {
      var head := sorted[0];
      if CompareTo(p.version, head.version) < 0 {
        forall k | 0 <= k < |sorted| ensures CompareTo(p.version, sorted[k].version) <= 0 {
          if k > 0 { CompareToTransitive(p.version, head.version, sorted[k].version); }
        }
        SortedCons(p, sorted);
      } else {
        var tail := sorted[1..];
        InsertSorted(tail, p);
        var rest := Insert(tail, p);
        CompareToFlip(p.version, head.version);
        assert forall q :: q in tail ==> CompareTo(head.version, q.version) <= 0 by {
          forall q | q in tail ensures CompareTo(head.version, q.version) <= 0 {
            var m :| 0 <= m < |tail| && tail[m] == q;
            assert sorted[m + 1] == q;
          }
        }
        forall k | 0 <= k < |rest| ensures CompareTo(head.version, rest[k].version) <= 0 {
          InsertMember(tail, p, rest[k]);
        }
        SortedCons(head, rest);
      }
    }
  }

  /** An entry no newer than anything in a sorted sequence can go in front of it. */
  lemma SortedCons(head: MediaProcessor, rest: seq<MediaProcessor>)
    requires SortedByVersion(rest)
    requires forall k :: 0 <= k < |rest| ==> CompareTo(head.version, rest[k].version) <= 0
    ensures SortedByVersion([head] + rest)
  {
    var s := [head] + rest;
    forall i, j | 0 <= i < j < |s| ensures CompareTo(s[i].version, s[j].version) <= 0 {
      assert s[j] == rest[j - 1];
      if i > 0 { assert s[i] == rest[i - 1]; }
    }
  }

  /** Whatever comes out of an insertion is the inserted entry or one that was already there. */
  lemma InsertMember(sorted: seq<MediaProcessor>, p: MediaProcessor, q: MediaProcessor)
    requires q in Insert(sorted, p)
    ensures q == p || q in sorted
  {
    assert q in multiset(Insert(sorted, p));
  }

  /** OrderBy(p => p.Version): a stable sort by version, built by inserting entries in order. */
  function OrderByVersion(s: seq<MediaProcessor>): (r: seq<MediaProcessor>)
    ensures multiset(r) == multiset(s)
  {
    if |s| == 0 then []
    else
      assert s == s[..|s| - 1] + [Last(s)];
      Insert(OrderByVersion(s[..|s| - 1]), Last(s))
  }

  /** The stable sort leaves its result ordered by version. */
  lemma {:induction false} OrderByVersionSorted(s: seq<MediaProcessor>)
    ensures SortedByVersion(OrderByVersion(s))
  {
    if |s| > 0 {
      OrderByVersionSorted(s[..|s| - 1]);
      InsertSorted(OrderByVersion(s[..|s| - 1]), Last(s));
    }
  }

  /** The last entry of a version-sorted sequence is at least as new as every entry in it. */
  lemma LastIsNewest(s: seq<MediaProcessor>)
    requires |s| > 0 && SortedByVersion(s)
    ensures forall q :: q in s ==> CompareTo(q.version, Last(s).version) <= 0
  {
    forall q | q in s ensures CompareTo(q.version, Last(s).version) <= 0 {
      var k :| 0 <= k < |s| && s[k] == q;
      if k < |s| - 1 { assert CompareTo(s[k].version, s[|s| - 1].version) <= 0; }
    }
  }

  /**
   * The message the lookup failure carries, as the program writes it: the format has no
   * placeholder, so the name passed to it is ignored.
   */
  function UnknownProcessorMessageAsWritten(name: string): (m: string)
    ensures m == "Unknown media processor"
  {
    assert Literal("Unknown media processor");
    FormatLiteral("Unknown media processor", [name]);
    Format("Unknown media processor", [name])
  }

  /** Finding: for every name, the message as written differs from the message that names it. */
  lemma AsWrittenMessageOmitsName(name: string)
    ensures UnknownProcessorMessageAsWritten(name) != UnknownProcessorMessage(name)
  {
    assert |UnknownProcessorMessageAsWritten(name)| < |UnknownProcessorMessage(name)|;
  }

  /**
   * The corrected message the lookup failure was meant to carry: the format names the
   * processor. GetLatest keeps the message as written.
   */
  function UnknownProcessorMessage(name: string): (m: string)
    ensures m == "Unknown media processor " + name
  {
    var lit := "Unknown media processor ";
    assert Literal(lit);
    FormatLiteralPrefix(lit, "{0}", [name]);
    FormatPlaceholder(0, "", [name]);
    assert ['{', ('0' as int + 0) as char, '}'] + "" == "{0}";
    Format(lit + "{0}", [name])
  }

  /**
   * GetLatestMediaProcessorByName: the last entry of the name-filtered registry after a stable
   * sort by version, or an ArgumentException when no entry has that name.
   */
  function GetLatest(registry: seq<MediaProcessor>, name: string): (r: Result<MediaProcessor, Fault>)
    ensures r.Failure? <==> forall p :: p in registry ==> p.name != name
    ensures r.Failure? ==> r.error == UnknownMediaProcessor("Unknown media processor")
    ensures r.Success? ==> r.value in registry && r.value.name == name
    ensures r.Success? ==>
              forall p :: p in registry && p.name == name ==> CompareTo(p.version, r.value.version) <= 0
  {
    var named := Named(registry, name);
    var ordered := OrderByVersion(named);
    assert |ordered| == |multiset(ordered)| == |multiset(named)| == |named|;
    if |ordered| == 0 then
      Failure(UnknownMediaProcessor(UnknownProcessorMessageAsWritten(name)))
    else
      var p := Last(ordered);
      assert p in multiset(named);
      OrderByVersionSorted(named);
      LastIsNewest(ordered);
      assert forall q :: q in named ==> q in multiset(ordered);
      Success(p)
  }

  /**
   * Reference definition of the entry the lookup must return: position i holds an entry with
   * the name, no entry with the name is newer, and every entry with the name after i is older.
   */
  predicate IsLatestAt(registry: seq<MediaProcessor>, name: string, i: int)
  {
    && 0 <= i < |registry|
    && registry[i].name == name
    && (forall j :: 0 <= j < |registry| && registry[j].name == name ==>
          CompareTo(registry[j].version, registry[i].version) <= 0)
    && (forall j :: i < j < |registry| && registry[j].name == name ==>
          CompareTo(registry[j].version, registry[i].version) < 0)
  }

  /** The stable sort neither adds nor drops entries. */
  lemma OrderByVersionLength(s: seq<MediaProcessor>)
    ensures |OrderByVersion(s)| == |s|
  {
    assert |OrderByVersion(s)| == |multiset(OrderByVersion(s))| == |multiset(s)|;
  }

  /**
   * Inserting p into a non-empty sorted sequence leaves p last unless the sequence already
   * ends in something strictly newer.
   */
  lemma {:induction false} LastOfInsert(sorted: seq<MediaProcessor>, p: MediaProcessor)
    requires |sorted| > 0 && SortedByVersion(sorted)
    ensures Last(Insert(sorted, p)) ==
              if CompareTo(p.version, Last(sorted).version) < 0 then Last(sorted) else p
  {
    var head := sorted[0];
    if CompareTo(p.version, head.version) < 0 {
      assert Insert(sorted, p) == [p] + sorted;
      if |sorted| > 1 {
        assert CompareTo(head.version, Last(sorted).version) <= 0;
        CompareToTransitive(p.version, head.version, Last(sorted).version);
      }
    } else {
      var tail := sorted[1..];
      var rest := Insert(tail, p);
      assert Insert(sorted, p) == [head] + rest;
      assert Last(Insert(sorted, p)) == Last(rest);
      if |tail| == 0 {
        assert rest == [p];
      } else {
        SortedTail(sorted);
        LastOfInsert(tail, p);
        assert Last(tail) == Last(sorted);
      }
    }
  }

  /** Dropping the first entry keeps a sequence sorted. */
  lemma SortedTail(s: seq<MediaProcessor>)
    requires |s| > 0 && SortedByVersion(s)
    ensures SortedByVersion(s[1..])
  {
    var t := s[1..];
    forall i, j | 0 <= i < j < |t| ensures CompareTo(t[i].version, t[j].version) <= 0 {
      assert t[i] == s[i + 1] && t[j] == s[j + 1];
    }
  }


  /** Appending an entry with another name does not move the latest position. */
  lemma LatestAtAppendOther(earlier: seq<MediaProcessor>, x: MediaProcessor, name: string, i: int)
    requires IsLatestAt(earlier, name, i) && x.name != name
    ensures IsLatestAt(earlier + [x], name, i)
  {
  }

  /** Appending an older entry with the name does not move the latest position. */
  lemma LatestAtAppendOlder(earlier: seq<MediaProcessor>, x: MediaProcessor, name: string, i: int)
    requires IsLatestAt(earlier, name, i) && x.name == name
    requires CompareTo(x.version, earlier[i].version) < 0
    ensures IsLatestAt(earlier + [x], name, i)
  {
  }

  /** Appending an entry with the name that is no older than the latest makes it the latest. */
  lemma LatestAtAppendNewer(earlier: seq<MediaProcessor>, x: MediaProcessor, name: string, i: int)
    requires IsLatestAt(earlier, name, i) && x.name == name
    requires !(CompareTo(x.version, earlier[i].version) < 0)
    ensures IsLatestAt(earlier + [x], name, |earlier|)
  {
    var registry := earlier + [x];
    CompareToFlip(x.version, earlier[i].version);
    forall j | 0 <= j < |registry| && registry[j].name == name
      ensures CompareTo(registry[j].version, x.version) <= 0
    {
      if j < |earlier| {
        CompareToTransitive(registry[j].version, earlier[i].version, x.version);
      }
    }
  }

  /** The first entry with the name is the latest until another with the name arrives. */
  lemma LatestAtAppendFirst(earlier: seq<MediaProcessor>, x: MediaProcessor, name: string)
    requires forall p :: p in earlier ==> p.name != name
    requires x.name == name
    ensures IsLatestAt(earlier + [x], name, |earlier|)
  {
    var registry := earlier + [x];
    forall j | 0 <= j < |earlier| ensures registry[j].name != name {
      assert registry[j] == earlier[j] && earlier[j] in earlier;
    }
  }

  /** The entry the name-filtered stable sort puts last is the latest in the registry. */
  lemma {:induction false} LastOfOrderedIsLatest(registry: seq<MediaProcessor>, name: string)
    requires |Named(registry, name)| > 0
    ensures exists i :: IsLatestAt(registry, name, i) && registry[i] == Last(OrderByVersion(Named(registry, name)))
  {
    var n := |registry|;
    var earlier := registry[..n - 1];
    var x := registry[n - 1];
    var namedEarlier := Named(earlier, name);
    assert registry == earlier + [x];
    if x.name != name {
      assert Named(registry, name) == namedEarlier;
      LastOfOrderedIsLatest(earlier, name);
      var i :| IsLatestAt(earlier, name, i) && earlier[i] == Last(OrderByVersion(namedEarlier));
      LatestAtAppendOther(earlier, x, name, i);
    } else {
      var named := Named(registry, name);
      assert named == namedEarlier + [x];
      assert named[..|named| - 1] == namedEarlier;
      var ordered := OrderByVersion(namedEarlier);
      assert OrderByVersion(named) == Insert(ordered, x);
      if |namedEarlier| == 0 {
        LatestAtAppendFirst(earlier, x, name);
      } else {
        OrderByVersionLength(namedEarlier);
        LastOfOrderedIsLatest(earlier, name);
        var i :| IsLatestAt(earlier, name, i) && earlier[i] == Last(ordered);
        OrderByVersionSorted(namedEarlier);
        LastOfInsert(ordered, x);
        if CompareTo(x.version, earlier[i].version) < 0 {
          LatestAtAppendOlder(earlier, x, name, i);
        } else {
          LatestAtAppendNewer(earlier, x, name, i);
        }
      }
    }
  }

  /** At most one position satisfies the reference definition. */
  lemma LatestAtUnique(registry: seq<MediaProcessor>, name: string, i: int, j: int)
    requires IsLatestAt(registry, name, i) && IsLatestAt(registry, name, j)
    ensures i == j
  {
    if i < j {
      CompareToFlip(registry[j].version, registry[i].version);
    } else if j < i {
      CompareToFlip(registry[i].version, registry[j].version);
    }
  }

  /**
   * The lookup returns the newest entry with the name and, among entries of that version, the
   * one latest in the registry; it fails exactly when no such entry exists.
   */
  lemma GetLatestIsLatestAt(registry: seq<MediaProcessor>, name: string)
    ensures GetLatest(registry, name).Success? <==> exists i :: IsLatestAt(registry, name, i)
    ensures forall i :: IsLatestAt(registry, name, i) ==> GetLatest(registry, name) == Success(registry[i])
  {
    var named := Named(registry, name);
    OrderByVersionLength(named);
    assert forall i :: IsLatestAt(registry, name, i) ==> registry[i] in registry && registry[i].name == name;
    if GetLatest(registry, name).Success? {
      LastOfOrderedIsLatest(registry, name);
      var i :| IsLatestAt(registry, name, i) && registry[i] == Last(OrderByVersion(named));
      forall j | IsLatestAt(registry, name, j) ensures GetLatest(registry, name) == Success(registry[j]) {
        LatestAtUnique(registry, name, i, j);
      }
    }
  }
}

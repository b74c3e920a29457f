/** Photo records and the list operations the page coordinator performs on them:
    the id filter `prev.filter(p => p.id !== id)` and the uniqueness of ids. */
module Photos {

  /** A photo record `{ id, url }`; it is never mutated, only moved between lists. */
  datatype Photo = Photo(id: int, url: string)

  /** The ids occurring in `s`. */
  function IdSet(s: seq<Photo>): set<int>
  {
    set p | p in s :: p.id
  }

  /** No two entries of `s` carry the same id. */
  predicate UniqueIds(s: seq<Photo>)
  {
    forall i, j :: 0 <= i < j < |s| ==> s[i].id != s[j].id
  }

  /** `s.filter(p => p.id !== id)`: the entries of `s` whose id differs from `id`, in their order. */
  function WithoutId(s: seq<Photo>, id: int): (r: seq<Photo>)
    ensures |r| <= |s|
    ensures forall p :: p in r <==> p in s && p.id != id
    ensures id !in IdSet(r)
  {
    if s == [] then []
    else if s[0].id == id then WithoutId(s[1..], id)
    else [s[0]] + WithoutId(s[1..], id)
  }

  /** The id of every entry is in `IdSet`. */
  lemma IdOf(s: seq<Photo>, i: int)
    requires 0 <= i < |s|
    ensures s[i].id in IdSet(s)
  {
    assert s[i] in s;
  }

  /** Every id in `IdSet` belongs to some entry. */
  lemma IdIndex(s: seq<Photo>, x: int) returns (i: int)
    requires x in IdSet(s)
    ensures 0 <= i < |s| && s[i].id == x
  {
    var p :| p in s && p.id == x;
    i :| 0 <= i < |s| && s[i] == p;
  }

  /** An id that no entry carries is not in `IdSet`. */
  lemma NotInIdSet(s: seq<Photo>, x: int)
    requires forall j :: 0 <= j < |s| ==> s[j].id != x
    ensures x !in IdSet(s)
  {
    forall p | p in s ensures p.id != x {
      var j :| 0 <= j < |s| && s[j] == p;
    }
  }

  lemma IdSetConcat(a: seq<Photo>, b: seq<Photo>)
    ensures IdSet(a + b) == IdSet(a) + IdSet(b)
  {
    forall x | x in IdSet(a + b) ensures x in IdSet(a) + IdSet(b) {
      var p :| p in a + b && p.id == x;
    }
    forall x | x in IdSet(a) + IdSet(b) ensures x in IdSet(a + b) {
      if x in IdSet(a) {
        var p :| p in a && p.id == x;
        assert p in a + b;
      } else {
        var p :| p in b && p.id == x;
        assert p in a + b;
      }
    }
  }

  /** Filtering distributes over concatenation: the filter keeps the relative order of what it keeps. */
  lemma {:induction false} WithoutIdConcat(a: seq<Photo>, b: seq<Photo>, id: int)
    ensures WithoutId(a + b, id) == WithoutId(a, id) + WithoutId(b, id)
  {
    if a == [] {
      assert a + b == b;
    } else {
      assert (a + b)[0] == a[0];
      assert (a + b)[1..] == a[1..] + b;
      WithoutIdConcat(a[1..], b, id);
    }
  }

  /** Filtering by an id that does not occur changes nothing. */
  lemma {:induction false} WithoutAbsentId(s: seq<Photo>, id: int)
    requires id !in IdSet(s)
    ensures WithoutId(s, id) == s
  {
    if s != [] {
      assert s[0] in s;
      assert IdSet(s[1..]) <= IdSet(s) by {
        forall x | x in IdSet(s[1..]) ensures x in IdSet(s) {
          var p :| p in s[1..] && p.id == x;
          assert p in s;
        }
      }
      WithoutAbsentId(s[1..], id);
      assert [s[0]] + s[1..] == s;
    }
  }

  /** A list with unique ids splits into the part before entry `k`, entry `k` and the part after,
      with pairwise disjoint ids and each part unique. */
  lemma UniqueSplit(s: seq<Photo>, k: int)
    requires UniqueIds(s) && 0 <= k < |s|
    ensures s == s[..k] + [s[k]] + s[k+1..]
    ensures UniqueIds(s[..k]) && UniqueIds(s[k+1..])
    ensures s[k].id !in IdSet(s[..k]) && s[k].id !in IdSet(s[k+1..])
    ensures IdSet(s[..k]) !! IdSet(s[k+1..])
  {
    assert s == s[..k] + [s[k]] + s[k+1..];
    UniqueConcat(s[..k], [s[k]] + s[k+1..]);
    UniqueConcat([s[k]], s[k+1..]);
    IdSetConcat([s[k]], s[k+1..]);
    IdSetSingleton(s[k]);
  }

  /** With unique ids, filtering out the id of entry `k` removes exactly that entry and keeps
      every other entry in its order. */
  lemma WithoutIdAt(s: seq<Photo>, k: int)
    requires UniqueIds(s) && 0 <= k < |s|
    ensures WithoutId(s, s[k].id) == s[..k] + s[k+1..]
    ensures |WithoutId(s, s[k].id)| == |s| - 1
  {
    var id, before, after := s[k].id, s[..k], s[k+1..];
    UniqueSplit(s, k);
    assert WithoutId([s[k]], id) == [] by {
      assert [s[k]][1..] == [];
    }
    calc {
      WithoutId(s, id);
      { WithoutIdConcat(before + [s[k]], after, id); }
      WithoutId(before + [s[k]], id) + WithoutId(after, id);
      { WithoutIdConcat(before, [s[k]], id); }
      WithoutId(before, id) + WithoutId(after, id);
      { WithoutAbsentId(before, id); WithoutAbsentId(after, id); }
      before + after;
    }
  }

  /** Two lists together have unique ids exactly when each has and no id occurs in both. */
  lemma UniqueConcat(a: seq<Photo>, b: seq<Photo>)
    ensures UniqueIds(a + b) <==> UniqueIds(a) && UniqueIds(b) && IdSet(a) !! IdSet(b)
  {
    var c := a + b;
    if UniqueIds(c) {
      forall i, j | 0 <= i < j < |a| ensures a[i].id != a[j].id {
        assert c[i] == a[i] && c[j] == a[j];
      }
      forall i, j | 0 <= i < j < |b| ensures b[i].id != b[j].id {
        assert c[|a| + i] == b[i] && c[|a| + j] == b[j];
      }
      forall x | x in IdSet(a) ensures x !in IdSet(b) {
        var i := IdIndex(a, x);
        forall j | 0 <= j < |b| ensures b[j].id != x {
          assert c[i] == a[i] && c[|a| + j] == b[j];
        }
        NotInIdSet(b, x);
      }
    }
    if UniqueIds(a) && UniqueIds(b) && IdSet(a) !! IdSet(b) {
      forall i, j | 0 <= i < j < |c| ensures c[i].id != c[j].id {
        if j < |a| {
          assert c[i] == a[i] && c[j] == a[j];
        } else if i >= |a| {
          assert c[i] == b[i - |a|] && c[j] == b[j - |a|];
        } else {
          assert c[i] == a[i] && c[j] == b[j - |a|];
          IdOf(a, i);
          IdOf(b, j - |a|);
        }
      }
    }
  }

  lemma IdSetSingleton(p: Photo)
    ensures IdSet([p]) == {p.id}
  {
    assert p in [p];
  }
}

/** The gallery entry both image services hand to the UI (`SavedImage` in
    either `userImageService.ts`), and the newest-first ordering they apply
    with `images.sort((a, b) => b.createdAt.getTime() - a.createdAt.getTime())`.
    `Array.prototype.sort` is stable, so entries with the same time keep the
    order they arrived in; the sort is modelled as a stable insertion sort. */
module Gallery {

  /** `createdAt` is the instant in milliseconds since the epoch. */
  datatype SavedImage = SavedImage(id: string, userId: string, prompt: string, imageUrl: string, createdAt: int)

  /** Non-increasing `createdAt`: newest first. */
  predicate NewestFirst(s: seq<SavedImage>)
  {
    forall i, j :: 0 <= i < j < |s| ==> s[i].createdAt >= s[j].createdAt
  }

  /** The entries of `s` stamped with time `t`, in their order in `s`. */
  function StampedAt(s: seq<SavedImage>, t: int): (r: seq<SavedImage>)
    ensures |r| <= |s|
    ensures forall e :: e in r ==> e in s && e.createdAt == t
  {
    if s == [] then []
    else if s[0].createdAt == t then [s[0]] + StampedAt(s[1..], t)
    else StampedAt(s[1..], t)
  }

  /** Puts `x` in front of the first entry that is not newer than it, so that
      `x` goes before the entries of equal time that followed it. */
  function Insert(x: SavedImage, s: seq<SavedImage>): (r: seq<SavedImage>)
    ensures multiset(r) == multiset([x] + s)
  {
    if s == [] || s[0].createdAt <= x.createdAt then [x] + s
    else
      assert s == [s[0]] + s[1..];
      [s[0]] + Insert(x, s[1..])
  }

  /** The comparator sort of the two services: newest first, stable. */
  function SortNewestFirst(s: seq<SavedImage>): (r: seq<SavedImage>)
  {
    if s == [] then [] else Insert(s[0], SortNewestFirst(s[1..]))
  }

  lemma {:induction false} InsertNewestFirst(x: SavedImage, s: seq<SavedImage>)
    requires NewestFirst(s)
    ensures NewestFirst(Insert(x, s))
  {
    if s == [] || s[0].createdAt <= x.createdAt {
    } else {
      InsertNewestFirst(x, s[1..]);
      var r := Insert(x, s[1..]);
      forall e | e in r ensures s[0].createdAt >= e.createdAt {
        assert e in multiset([x] + s[1..]);
      }
    }
  }

  lemma {:induction false} InsertStable(x: SavedImage, s: seq<SavedImage>, t: int)
    ensures StampedAt(Insert(x, s), t) == StampedAt([x] + s, t)
  {
    if s == [] || s[0].createdAt <= x.createdAt {
    } else {
      InsertStable(x, s[1..], t);
      var r := [s[0]] + Insert(x, s[1..]);
      assert r[1..] == Insert(x, s[1..]);
      assert ([x] + s)[1..] == s;
      assert ([x] + s[1..])[1..] == s[1..];
    }
  }

  /** The sorted gallery is newest first. */
  lemma {:induction false} SortIsNewestFirst(s: seq<SavedImage>)
    ensures NewestFirst(SortNewestFirst(s))
  {
    if s != [] {
      SortIsNewestFirst(s[1..]);
      InsertNewestFirst(s[0], SortNewestFirst(s[1..]));
    }
  }

  /** The sorted gallery holds the same entries, each as often as before. */
  lemma {:induction false} SortPermutes(s: seq<SavedImage>)
    ensures multiset(SortNewestFirst(s)) == multiset(s)
  {
    if s != [] {
      SortPermutes(s[1..]);
      assert s == [s[0]] + s[1..];
    }
  }

  /** Stability: entries with the same time keep their relative order. */
  lemma {:induction false} SortIsStable(s: seq<SavedImage>, t: int)
    ensures StampedAt(SortNewestFirst(s), t) == StampedAt(s, t)
  {
    if s != [] {
      SortIsStable(s[1..], t);
      InsertStable(s[0], SortNewestFirst(s[1..]), t);
    }
  }
}

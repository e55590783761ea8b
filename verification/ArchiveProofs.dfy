/** Links resolve to the end of their chain in any order, and an archive unpacks to what was packed. */
module ArchiveProofs {
  import opened Wrappers
  import opened Archive

  // ---- Following one link at a time --------------------------------------------------------

  /** What becomes of a name after at most `n` hops through the links. */
  datatype Fate = Landed(entry: Option<Entry>) | Lost(error: Error) | Going

  function Follow(files: Files, links: Links, name: string, n: nat): Fate
    decreases n
  {
    if name in files then Landed(files[name])
    else if name !in links then Lost(Unresolved(name))
    else if Next(links, name).Err? then Lost(Next(links, name).error)
    else if n == 0 then Going
    else Follow(files, links, Next(links, name).value, n - 1)
  }

  /** The outcome a fate stands for. */
  function Told(fate: Fate): Result<Option<Entry>, Error>
    requires !fate.Going?
  {
    match fate
    case Landed(entry) => Ok(entry)
    case Lost(error) => Err(error)
  }

  lemma {:induction false} FollowMore(files: Files, links: Links, name: string, n: nat, m: nat)
    requires n <= m && !Follow(files, links, name, n).Going?
    ensures Follow(files, links, name, m) == Follow(files, links, name, n)
    decreases n
  {
    if n > 0 && name !in files && name in links && Next(links, name).Ok? {
      FollowMore(files, links, Next(links, name).value, n - 1, m - 1);
    }
  }

  /** A chain that ends is resolved to its end: nothing it has seen lies ahead. */
  lemma {:induction false} EndIsResolved(files: Files, links: Links, name: string, n: nat, seen: set<string>)
    requires seen <= links.Keys && !Follow(files, links, name, n).Going?
    requires forall s | s in seen :: Follow(files, links, s, n).Going?
    ensures Resolve(files, links, name, seen) == Told(Follow(files, links, name, n))
    decreases n
  {
    if name !in files && name in links && Next(links, name).Ok? {
      if Follow(files, links, name, n - 1).Going? {
        forall s | s in seen + {name} ensures Follow(files, links, s, n - 1).Going? {
          if !Follow(files, links, s, n - 1).Going? {
            FollowMore(files, links, s, n - 1, n);
          }
        }
        EndIsResolved(files, links, Next(links, name).value, n - 1, seen + {name});
      } else {
        FollowMore(files, links, name, n - 1, n);
        forall s | s in seen ensures Follow(files, links, s, n - 1).Going? {
          if !Follow(files, links, s, n - 1).Going? {
            FollowMore(files, links, s, n - 1, n);
          }
        }
        EndIsResolved(files, links, name, n - 1, seen);
      }
    }
  }

  /** Resolution that does not report a cycle found the end of the chain. */
  lemma {:induction false} ResolvedEnds(files: Files, links: Links, name: string, seen: set<string>) returns (n: nat)
    requires seen <= links.Keys
    requires Resolve(files, links, name, seen).Ok? || !Resolve(files, links, name, seen).error.Cyclic?
    ensures !Follow(files, links, name, n).Going?
    decreases links.Keys - seen
  {
    n := 0;
    if name !in files && name in links && Next(links, name).Ok? {
      n := ResolvedEnds(files, links, Next(links, name).value, seen + {name});
      n := n + 1;
    }
  }

  lemma {:induction false} LostNotCyclic(files: Files, links: Links, name: string, n: nat)
    ensures Follow(files, links, name, n).Lost? ==> !Follow(files, links, name, n).error.Cyclic?
    decreases n
  {
    if n > 0 && name !in files && name in links && Next(links, name).Ok? {
      LostNotCyclic(files, links, Next(links, name).value, n - 1);
    }
  }

  /**
   Resolution equals chain following. A name resolves exactly to where its chain ends, fails as
   unresolved or unsafe exactly when its chain ends there, and as cyclic exactly when it never ends.
   */
  lemma ResolveFollows(files: Files, links: Links, name: string, n: nat)
    ensures !Follow(files, links, name, n).Going? ==>
              Resolve(files, links, name, {}) == Told(Follow(files, links, name, n))
    ensures (Resolve(files, links, name, {}).Err? && Resolve(files, links, name, {}).error.Cyclic?)
            <==> forall k: nat :: Follow(files, links, name, k).Going?
  {
    forall k: nat | !Follow(files, links, name, k).Going?
      ensures Resolve(files, links, name, {}) == Told(Follow(files, links, name, k))
    {
      EndIsResolved(files, links, name, k, {});
    }
    var resolved := Resolve(files, links, name, {});
    if resolved.Err? && resolved.error.Cyclic? {
      forall k: nat ensures Follow(files, links, name, k).Going? {
        LostNotCyclic(files, links, name, k);
      }
    } else {
      var k := ResolvedEnds(files, links, name, {});
      assert !Follow(files, links, name, k).Going?;
    }
  }

  /** The chain of a name ends at a file or directory. */
  ghost predicate Lands(files: Files, links: Links, name: string) {
    exists n: nat :: Follow(files, links, name, n).Landed?
  }

  /** The chain of a name ends at this entry. */
  ghost predicate LandsOn(files: Files, links: Links, name: string, entry: Option<Entry>) {
    exists n: nat :: Follow(files, links, name, n) == Landed(entry)
  }

  lemma ResolvesWhenLands(files: Files, links: Links, name: string)
    ensures Resolve(files, links, name, {}).Ok? <==> Lands(files, links, name)
    ensures Resolve(files, links, name, {}).Ok? ==> LandsOn(files, links, name, Resolve(files, links, name, {}).value)
  {
    if n: nat :| Follow(files, links, name, n).Landed? {
      ResolveFollows(files, links, name, n);
    } else if Resolve(files, links, name, {}).Ok? {
      var n := ResolvedEnds(files, links, name, {});
      ResolveFollows(files, links, name, n);
    }
  }

  lemma LandsOnOne(files: Files, links: Links, name: string, a: Option<Entry>, b: Option<Entry>)
    requires LandsOn(files, links, name, a) && LandsOn(files, links, name, b)
    ensures a == b
  {
    var n: nat :| Follow(files, links, name, n) == Landed(a);
    var m: nat :| Follow(files, links, name, m) == Landed(b);
    if n <= m {
      FollowMore(files, links, name, n, m);
    } else {
      FollowMore(files, links, name, m, n);
    }
  }

  // ---- Resolving in place ------------------------------------------------------------------

  /** A table that also holds some links, each with the file its chain ends at. */
  ghost predicate Extended(files: Files, links: Links, more: Files) {
    && (forall name | name in files :: name in more && more[name] == files[name])
    && (forall name | name in more && name !in files :: Resolve(files, links, name, {}) == Ok(more[name]))
  }

  lemma {:induction false} ExtendedFollow(files: Files, links: Links, more: Files, name: string, n: nat)
    requires Extended(files, links, more) && Follow(files, links, name, n).Landed?
    ensures Follow(more, links, name, n) == Follow(files, links, name, n)
    decreases n
  {
    if name in more {
      if name !in files {
        ResolveFollows(files, links, name, n);
      }
    } else {
      ExtendedFollow(files, links, more, Next(links, name).value, n - 1);
    }
  }

  lemma MoreLands(files: Files, links: Links, more: Files, name: string) returns (n: nat)
    requires Extended(files, links, more) && name in more
    ensures Follow(files, links, name, n) == Landed(more[name])
  {
    n := 0;
    if name !in files {
      n := ResolvedEnds(files, links, name, {});
      ResolveFollows(files, links, name, n);
    }
  }

  lemma HopLands(files: Files, links: Links, name: string)
    requires name !in files && name in links && Next(links, name).Ok?
    ensures Lands(files, links, Next(links, name).value) ==> Lands(files, links, name)
  {
    if n: nat :| Follow(files, links, Next(links, name).value, n).Landed? {
      assert Follow(files, links, name, n + 1).Landed?;
    }
  }

  /** Off the chains that end, the extended table has nothing to offer. */
  lemma {:induction false} ExtendedFails(files: Files, links: Links, more: Files, name: string, seen: set<string>)
    requires Extended(files, links, more) && seen <= links.Keys && !Lands(files, links, name)
    ensures Resolve(more, links, name, seen) == Resolve(files, links, name, seen)
    decreases links.Keys - seen
  {
    if name in more {
      var n := MoreLands(files, links, more, name);
    } else if name !in seen && name in links && Next(links, name).Ok? {
      HopLands(files, links, name);
      ExtendedFails(files, links, more, Next(links, name).value, seen + {name});
    }
  }

  /** Memoising changes no answer. */
  lemma ExtendedResolve(files: Files, links: Links, more: Files, name: string)
    requires Extended(files, links, more)
    ensures Resolve(more, links, name, {}) == Resolve(files, links, name, {})
  {
    if Lands(files, links, name) {
      var n: nat :| Follow(files, links, name, n).Landed?;
      ExtendedFollow(files, links, more, name, n);
      ResolveFollows(files, links, name, n);
      ResolveFollows(more, links, name, n);
    } else {
      ExtendedFails(files, links, more, name, {});
    }
  }

  /** The first name of an order that does not resolve on its own. */
  function FirstFailure(files: Files, links: Links, order: seq<string>): Option<Error> {
    if order == [] then None
    else if Resolve(files, links, order[0], {}).Err? then Some(Resolve(files, links, order[0], {}).error)
    else FirstFailure(files, links, order[1..])
  }

  lemma {:induction false} MemoiseFollows(files: Files, links: Links, more: Files, order: seq<string>)
    requires Extended(files, links, more)
    ensures var (after, failure) := Memoise(more, links, order);
            && failure == FirstFailure(files, links, order)
            && (failure.None? ==> Extended(files, links, after) && after.Keys == more.Keys + set name | name in order)
    decreases |order|
  {
    if order != [] {
      ExtendedResolve(files, links, more, order[0]);
      var resolved := Resolve(more, links, order[0], {});
      if resolved.Ok? {
        MemoiseFollows(files, links, more[order[0] := resolved.value], order[1..]);
        assert (set name | name in order) == {order[0]} + set name | name in order[1..];
      }
    }
  }

  lemma {:induction false} FailureMeans(files: Files, links: Links, order: seq<string>)
    ensures FirstFailure(files, links, order).Some?
            <==> exists i | 0 <= i < |order| :: Resolve(files, links, order[i], {}).Err?
  {
    if order != [] {
      FailureMeans(files, links, order[1..]);
      assert forall i | 0 < i < |order| :: order[1..][i - 1] == order[i];
      assert forall i | 0 <= i < |order| - 1 :: order[1..][i] == order[i + 1];
    }
  }

  /** The order yields exactly the links. */
  ghost predicate Yields(order: seq<string>, links: Links) {
    forall name :: name in order <==> name in links
  }

  lemma FailureMeansLink(files: Files, links: Links, order: seq<string>)
    requires Yields(order, links)
    ensures FirstFailure(files, links, order).None? <==> forall name | name in links :: Lands(files, links, name)
  {
    FailureMeans(files, links, order);
    forall i | 0 <= i < |order| ensures Resolve(files, links, order[i], {}).Ok? <==> Lands(files, links, order[i]) {
      ResolvesWhenLands(files, links, order[i]);
    }
    forall name | name in links ensures exists i :: 0 <= i < |order| && order[i] == name {
      assert name in order;
    }
  }

  lemma TableLands(files: Files, links: Links, more: Files, name: string)
    requires Extended(files, links, more) && name in more
    ensures LandsOn(files, links, name, more[name])
  {
    var n := MoreLands(files, links, more, name);
  }

  /**
   Resolving in place, in any order, succeeds exactly when every link's own chain ends at a file
   or directory, and then the table holds each name with the end of its own chain.
   */
  lemma AnyOrderResolves(files: Files, links: Links, order: seq<string>)
    requires Yields(order, links)
    ensures var (after, failure) := Memoise(files, links, order);
            && (failure.None? <==> forall name | name in links :: Lands(files, links, name))
            && (failure.None? ==>
                  && after.Keys == files.Keys + links.Keys
                  && forall name | name in after :: LandsOn(files, links, name, after[name]))
  {
    MemoiseFollows(files, links, files, order);
    FailureMeansLink(files, links, order);
    var (after, failure) := Memoise(files, links, order);
    if failure.None? {
      assert (set name | name in order) == links.Keys;
      forall name | name in after ensures LandsOn(files, links, name, after[name]) {
        TableLands(files, links, after, name);
      }
    }
  }

  lemma SameTable(files: Files, links: Links, a: Files, b: Files)
    requires a.Keys == b.Keys
    requires forall name | name in a :: LandsOn(files, links, name, a[name])
    requires forall name | name in b :: LandsOn(files, links, name, b[name])
    ensures a == b
  {
    forall name | name in a ensures a[name] == b[name] {
      LandsOnOne(files, links, name, a[name], b[name]);
    }
  }

  /** So two orders give the same table. */
  lemma OrderDoesNotMatter(files: Files, links: Links, one: seq<string>, two: seq<string>)
    requires Yields(one, links) && Yields(two, links) && Memoise(files, links, one).1.None?
    ensures Memoise(files, links, two) == Memoise(files, links, one)
  {
    AnyOrderResolves(files, links, one);
    AnyOrderResolves(files, links, two);
    SameTable(files, links, Memoise(files, links, one).0, Memoise(files, links, two).0);
  }
}

/** Tables with weak keys, during the atomic step: an entry keeps its value alive only while its key
    is alive for some other reason. */
module GcEphemeron {
  import opened GcHeap

  datatype Entry = Entry(key: Ptr, val: Ptr)

  /** The objects of the heap: what each refers to strongly (for a table, its metatable and array part),
      and the entries of the tables with weak keys.  Strings are never weak. */
  datatype Weak = Weak(refs: map<Ptr, seq<Ptr>>, entries: map<Ptr, seq<Entry>>, strings: set<Ptr>)

  ghost predicate InHeap(w: Weak) {
    && (forall p <- w.refs.Keys :: Refs(w.refs[p]) <= w.refs.Keys)
    && (forall t <- w.entries.Keys :: t in w.refs && EntriesIn(w, w.entries[t]))
    && (forall s <- w.strings :: s in w.refs && w.refs[s] == [] && s !in w.entries)
    && NULL !in w.refs
  }

  ghost predicate EntriesIn(w: Weak, es: seq<Entry>) {
    forall e <- es :: (e.key != NULL ==> e.key in w.refs) && (e.val != NULL ==> e.val in w.refs)
  }

  /** A key that is not marked and not a string: its entry is to be cleared. */
  predicate Cleared(w: Weak, m: set<Ptr>, key: Ptr) { key != NULL && key !in w.strings && key !in m }

  /** A string key is marked, and so is the value of an entry whose key is not cleared. */
  predicate EntryOk(w: Weak, m: set<Ptr>, e: Entry) {
    && (e.key in w.strings ==> e.key in m)
    && (Cleared(w, m, e.key) || e.val == NULL || e.val in m)
  }

  /** Nothing more can come from the entry, whatever is marked later. */
  predicate EntrySettled(w: Weak, m: set<Ptr>, e: Entry) {
    (e.key in w.strings ==> e.key in m) && (e.val == NULL || e.val in m)
  }

  ghost predicate TableOk(w: Weak, m: set<Ptr>, t: Ptr) {
    t in w.entries ==> forall e <- w.entries[t] :: EntryOk(w, m, e)
  }

  ghost predicate Settled(w: Weak, m: set<Ptr>, t: Ptr) {
    t in w.entries ==> forall e <- w.entries[t] :: EntrySettled(w, m, e)
  }

  ghost predicate RefsIn(w: Weak, m: set<Ptr>, p: Ptr) { p in w.refs && Refs(w.refs[p]) <= m }

  /** Some key of the table is to be cleared. */
  ghost predicate Clears(w: Weak, m: set<Ptr>, t: Ptr) {
    t in w.entries && exists i | 0 <= i < |w.entries[t]| :: Cleared(w, m, w.entries[t][i].key)
  }

  /** The value of an entry whose key is to be cleared is not marked either: it will be if the key is. */
  predicate Pending(w: Weak, m: set<Ptr>, e: Entry) { Cleared(w, m, e.key) && e.val != NULL && e.val !in m }

  ghost predicate Gives(w: Weak, m: set<Ptr>, t: Ptr) {
    t in w.entries && exists i | 0 <= i < |w.entries[t]| :: Pending(w, m, w.entries[t][i])
  }

  /** Closed under strong references, and under "a marked key keeps its value" for marked tables. */
  ghost predicate Saturated(w: Weak, m: set<Ptr>) { forall p <- m :: RefsIn(w, m, p) && TableOk(w, m, p) }

  /** Every marked object is waiting in `gray`, or has been visited; a visited table may have to be
      visited again only if it is in `again`. */
  ghost predicate Visited(w: Weak, m: set<Ptr>, gray: seq<Ptr>, again: set<Ptr>, p: Ptr) {
    p in gray || (RefsIn(w, m, p) && (Settled(w, m, p) || p in again))
  }

  ghost predicate Worked(w: Weak, m: set<Ptr>, gray: seq<Ptr>, again: set<Ptr>) {
    && m <= w.refs.Keys
    && (forall p <- gray :: p in m) && again <= m
    && forall p <- m :: Visited(w, m, gray, again, p)
  }

  /** Whatever closed set the old marks are in, the new ones are in it too. */
  ghost predicate Forced(w: Weak, m: set<Ptr>, m': set<Ptr>) {
    m <= m' && forall S: set<Ptr> | Saturated(w, S) && m <= S :: m' <= S
  }

  /** Marking more clears fewer keys. */
  lemma FewerClears(w: Weak, m: set<Ptr>, m': set<Ptr>)
    requires m <= m'
    ensures forall t :: Clears(w, m', t) ==> Clears(w, m, t)
    ensures forall t :: Gives(w, m', t) ==> Gives(w, m, t)
  {
    forall t | Clears(w, m', t) ensures Clears(w, m, t) {
      var i :| 0 <= i < |w.entries[t]| && Cleared(w, m', w.entries[t][i].key);
      assert Cleared(w, m, w.entries[t][i].key);
    }
    forall t | Gives(w, m', t) ensures Gives(w, m, t) {
      var i :| 0 <= i < |w.entries[t]| && Pending(w, m', w.entries[t][i]);
      assert Pending(w, m, w.entries[t][i]);
    }
  }

  lemma Grown(w: Weak, m: set<Ptr>, m': set<Ptr>)
    requires Forced(w, m, m')
    ensures m <= m'
  {
  }

  lemma EntryInHeap(w: Weak, t: Ptr, e: Entry)
    requires InHeap(w) && t in w.entries && e in w.entries[t]
    ensures (e.key != NULL ==> e.key in w.refs) && (e.val != NULL ==> e.val in w.refs)
  {
    assert EntriesIn(w, w.entries[t]);
  }

  lemma ForcedRefl(w: Weak, m: set<Ptr>)
    ensures Forced(w, m, m)
  {
  }

  lemma ForcedMore(w: Weak, m: set<Ptr>, m': set<Ptr>, gray: seq<Ptr>, again: set<Ptr>)
    requires Forced(w, m, m') && Worked(w, m', gray, again)
    ensures m <= m' <= w.refs.Keys
  {
  }

  /** When nothing is gray and the tables that are left have nothing to give, the marking is closed. */
  lemma AllVisited(w: Weak, m: set<Ptr>, tables: seq<Ptr>)
    requires Worked(w, m, [], (set t | t in tables) + (set t: Ptr | t in [])) && forall t <- tables :: TableOk(w, m, t)
    ensures Saturated(w, m)
  {
    forall p | p in m ensures RefsIn(w, m, p) && TableOk(w, m, p) {
      assert Visited(w, m, [], (set t | t in tables) + (set t: Ptr | t in []), p);
    }
  }

  lemma ForcedTrans(w: Weak, a: set<Ptr>, b: set<Ptr>, c: set<Ptr>)
    requires Forced(w, a, b) && Forced(w, b, c)
    ensures Forced(w, a, c)
  {
  }

  lemma ForcedRef(w: Weak, m: set<Ptr>, p: Ptr, r: Ptr)
    requires p in m && p in w.refs && r in Refs(w.refs[p])
    ensures Forced(w, m, m + {r})
  {
    forall S: set<Ptr> | Saturated(w, S) && m <= S ensures m + {r} <= S { assert RefsIn(w, S, p); }
  }

  lemma ForcedKey(w: Weak, m: set<Ptr>, t: Ptr, e: Entry)
    requires t in m && t in w.entries && e in w.entries[t] && e.key in w.strings
    ensures Forced(w, m, m + {e.key})
  {
    forall S: set<Ptr> | Saturated(w, S) && m <= S ensures m + {e.key} <= S {
      assert TableOk(w, S, t) && EntryOk(w, S, e);
    }
  }

  lemma ForcedValue(w: Weak, m: set<Ptr>, t: Ptr, e: Entry)
    requires t in m && t in w.entries && e in w.entries[t] && !Cleared(w, m, e.key) && e.val != NULL
    ensures Forced(w, m, m + {e.val})
  {
    forall S: set<Ptr> | Saturated(w, S) && m <= S ensures m + {e.val} <= S {
      assert TableOk(w, S, t) && EntryOk(w, S, e);
    }
  }

  /** The result does not depend on the order in which tables and objects are visited. */
  lemma LeastIsUnique(w: Weak, m: set<Ptr>, a: set<Ptr>, b: set<Ptr>)
    requires Saturated(w, a) && Forced(w, m, a) && Saturated(w, b) && Forced(w, m, b)
    ensures a == b
  {
    assert m <= a && m <= b;
  }

  class Marker {
    const w: Weak
    var marked: set<Ptr>
    var gray: seq<Ptr>
    var ephemeron: seq<Ptr>     // tables with a white key that refers to a white value
    var allweak: seq<Ptr>       // other tables with white keys
    var grayagain: seq<Ptr>     // tables without white keys

    constructor (w: Weak, marked: set<Ptr>, ephemeron: seq<Ptr>, allweak: seq<Ptr>)
      requires InHeap(w) && Worked(w, marked, [], set t | t in ephemeron)
      requires forall t <- marked :: Clears(w, marked, t) ==> t in ephemeron || t in allweak
      ensures this.w == w && this.marked == marked && this.ephemeron == ephemeron && this.allweak == allweak
      ensures gray == [] && Filed(Again([]), NULL)
    {
      this.w, this.marked, this.ephemeron, this.allweak := w, marked, ephemeron, allweak;
      gray, grayagain := [], [];
    }

    /** A visited table with a key to be cleared is in a list in which keys are cleared, or is visited again. */
    ghost predicate Filed(again: set<Ptr>, busy: Ptr)
      reads this`marked, this`gray, this`allweak
    {
      forall t <- marked :: t != busy && t !in gray && Clears(w, marked, t) ==> t in again || t in allweak
    }

    /** The tables that may have to be visited again. */
    ghost function Again(next: seq<Ptr>): set<Ptr>
      reads this
    {
      (set t | t in ephemeron) + (set t | t in next)
    }

    ghost predicate Tables()
      reads this
    {
      (forall t <- ephemeron :: t in w.entries) && forall t <- allweak :: t in w.entries
    }

    /** Marks a white object; a string needs no visit. */
    method ReallyMark(o: Ptr, ghost again: set<Ptr>, ghost busy: Ptr)
      requires InHeap(w) && o in w.refs && o !in marked && Working(again, busy)
      modifies this`marked, this`gray
      ensures marked == old(marked) + {o} && Working(again, busy)
      ensures old(Filed(again, busy)) ==> Filed(again, busy)
      ensures o in w.strings ==> gray == old(gray)
      ensures |gray| <= old(|gray|) + 1
    {
      marked := marked + {o};
      if o !in w.strings {
        gray := [o] + gray;
      }
      FewerClears(w, old(marked), marked);
      assert o in w.strings ==> o !in w.entries;
      assert o in w.strings ==> RefsIn(w, marked, o) && Settled(w, marked, o);
    }

    /** `Worked`, except for the object being visited. */
    ghost predicate Working(again: set<Ptr>, busy: Ptr)
      reads this
    {
      && marked <= w.refs.Keys
      && (forall p <- gray :: p in marked) && again <= marked
      && forall p <- marked :: p == busy || Visited(w, marked, gray, again, p)
    }

    /** Marks the objects that `t` refers to strongly. */
    method MarkRefs(t: Ptr, ghost again: set<Ptr>) returns (changed: bool)
      requires InHeap(w) && t in marked && t in w.refs && Working(again, t)
      modifies this`marked, this`gray
      ensures Working(again, t) && RefsIn(w, marked, t) && Forced(w, old(marked), marked)
      ensures old(Filed(again, t)) ==> Filed(again, t)
      ensures changed <==> marked != old(marked)
      ensures !changed ==> gray == old(gray)
    {
      hide Filed;
      ghost var m, filed := marked, Filed(again, t);
      changed := false;
      var i := 0;
      while i < |w.refs[t]|
        invariant 0 <= i <= |w.refs[t]| && t in marked && Working(again, t) && Forced(w, m, marked)
        invariant Refs(w.refs[t][..i]) <= marked
        invariant filed ==> Filed(again, t)
        invariant changed <==> marked != m
        invariant !changed ==> gray == old(gray)
      {
        var r := w.refs[t][i];
        if r != NULL && r !in marked {
          ghost var m1 := marked;
          assert r in Refs(w.refs[t]);
          ReallyMark(r, again, t);
          ForcedRef(w, m1, t, r);
          ForcedTrans(w, m, m1, marked);
          changed := true;
        }
        i := i + 1;
      }
      assert w.refs[t][..i] == w.refs[t];
    }

    /** Visits an entry: a string key is marked, and so is the value unless the key is to be cleared. */
    method MarkEntry(t: Ptr, e: Entry, ghost again: set<Ptr>) returns (changed: bool, clears: bool, pending: bool)
      requires InHeap(w) && t in marked && t in w.entries && e in w.entries[t] && Working(again, t)
      modifies this`marked, this`gray
      ensures Working(again, t) && Forced(w, old(marked), marked) && EntryOk(w, marked, e)
      ensures old(Filed(again, t)) ==> Filed(again, t)
      ensures clears <==> Cleared(w, old(marked), e.key)
      ensures pending <==> Pending(w, old(marked), e)
      ensures clears ==> marked == old(marked)
      ensures !clears ==> !Cleared(w, marked, e.key)
      ensures !pending ==> EntrySettled(w, marked, e)
      ensures changed ==> marked != old(marked)
      ensures !changed ==> marked - old(marked) <= w.strings && gray == old(gray)
    {
      hide Filed, Working;
      ghost var m := marked;
      EntryInHeap(w, t, e);
      ForcedRefl(w, m);
      changed, clears, pending := false, false, false;
      if e.key in w.strings && e.key !in marked {
        ReallyMark(e.key, again, t);
        ForcedKey(w, m, t, e);
      }
      if Cleared(w, marked, e.key) {
        clears := true;
        pending := e.val != NULL && e.val !in marked;
      } else if e.val != NULL && e.val !in marked {
        ghost var m1 := marked;
        ReallyMark(e.val, again, t);
        ForcedValue(w, m1, t, e);
        ForcedTrans(w, m, m1, marked);
        changed := true;
      }
    }

    /** Visits the entries of a table with weak keys. */
    method MarkEntries(t: Ptr, ghost again: set<Ptr>) returns (changed: bool, hasclears: bool, prop: bool)
      requires InHeap(w) && t in marked && t in w.entries && Working(again, t)
      modifies this`marked, this`gray
      ensures Working(again, t) && Forced(w, old(marked), marked)
      ensures old(Filed(again, t)) ==> Filed(again, t)
      ensures if prop then Gives(w, old(marked), t) else !Gives(w, marked, t)
      ensures if hasclears then Clears(w, old(marked), t) else !Clears(w, marked, t)
      ensures prop ==> hasclears
      ensures !prop ==> Settled(w, marked, t)
      ensures changed ==> marked != old(marked)
      ensures !changed ==> marked - old(marked) <= w.strings && gray == old(gray) && TableOk(w, marked, t)
    {
      hide Filed, Working, Forced, InHeap;
      ghost var m, filed := marked, Filed(again, t);
      ForcedRefl(w, m);
      changed, hasclears, prop := false, false, false;
      var i := 0;
      while i < |w.entries[t]|
        invariant 0 <= i <= |w.entries[t]| && t in marked && Working(again, t) && Forced(w, m, marked) && m <= marked
        invariant filed ==> Filed(again, t)
        invariant if hasclears then Clears(w, m, t)
                  else forall j | 0 <= j < i :: !Cleared(w, marked, w.entries[t][j].key)
        invariant prop ==> hasclears && Gives(w, m, t)
        invariant !prop ==> forall j | 0 <= j < i :: EntrySettled(w, marked, w.entries[t][j])
        invariant changed ==> marked != m
        invariant !changed ==> marked - m <= w.strings && gray == old(gray)
        invariant !changed ==> forall j | 0 <= j < i :: EntryOk(w, marked, w.entries[t][j])
      {
        var e := w.entries[t][i];
        ghost var m1 := marked;
        var c, clears, pending := MarkEntry(t, e, again);
        Grown(w, m1, marked);
        ForcedTrans(w, m, m1, marked);
        assert clears ==> Cleared(w, m, w.entries[t][i].key);
        assert pending ==> Pending(w, m, w.entries[t][i]);
        changed, hasclears, prop := changed || c, hasclears || clears, prop || pending;
        i := i + 1;
      }
    }

    /** Visits a table with weak keys and files it in the list that says what is still to be done. */
    method TraverseEphemeron(t: Ptr, ghost next: seq<Ptr>) returns (changed: bool)
      requires InHeap(w) && t in marked && t in w.entries && Working(Again(next), t)
      modifies this`marked, this`gray, this`ephemeron, this`allweak, this`grayagain
      ensures Worked(w, marked, gray, Again(next)) && Forced(w, old(marked), marked)
      ensures old(Filed(Again(next), t)) ==> Filed(Again(next), NULL)
      ensures
        || (ephemeron == [t] + old(ephemeron) && allweak == old(allweak) && grayagain == old(grayagain)
            && Gives(w, old(marked), t))
        || (ephemeron == old(ephemeron) && allweak == [t] + old(allweak) && grayagain == old(grayagain)
            && Clears(w, old(marked), t) && !Gives(w, marked, t))
        || (ephemeron == old(ephemeron) && allweak == old(allweak) && grayagain == [t] + old(grayagain)
            && !Clears(w, marked, t) && !Gives(w, marked, t))
      ensures ephemeron == old(ephemeron) || ephemeron == [t] + old(ephemeron)
      ensures changed ==> marked != old(marked)
      ensures !changed ==> marked - old(marked) <= w.strings && gray == old(gray) && TableOk(w, marked, t)
    {
      hide Clears, Gives;
      ghost var m, again := marked, Again(next);
      var numeric := MarkRefs(t, again);
      ghost var m1 := marked;
      var hash, hasclears, prop := MarkEntries(t, again);
      ForcedTrans(w, m, m1, marked);
      Grown(w, m, m1);
      FewerClears(w, m, m1);
      changed := numeric || hash;
      if prop {
        ephemeron := [t] + ephemeron;
      } else if hasclears {
        allweak := [t] + allweak;
      } else {
        grayagain := [t] + grayagain;
      }
      assert Again(next) == again || Again(next) == again + {t};
      forall p | p in marked ensures Visited(w, marked, gray, Again(next), p) {
        assert p != t ==> Visited(w, marked, gray, again, p);
      }
    }

    /** The first gray object is about to be visited. */
    lemma Popped(o: Ptr, rest: seq<Ptr>, again: set<Ptr>)
      requires InHeap(w) && Worked(w, marked, [o] + rest, again) && gray == rest
      ensures o in marked && o in w.refs && Working(again, o)
      ensures (forall t <- marked :: t != NULL && t !in [o] + rest && Clears(w, marked, t) ==>
              t in again || t in allweak)
              ==> Filed(again, o)
    {
      assert ([o] + rest)[0] == o && forall p <- rest :: p in [o] + rest;
      forall p | p in marked && p != o ensures Visited(w, marked, rest, again, p) {
        assert Visited(w, marked, [o] + rest, again, p);
      }
    }

    /** Visits the first gray object. */
    method PropagateMark(ghost next: seq<Ptr>)
      requires InHeap(w) && gray != [] && Worked(w, marked, gray, Again(next))
      modifies this`marked, this`gray, this`ephemeron, this`allweak, this`grayagain
      ensures Worked(w, marked, gray, Again(next)) && Forced(w, old(marked), marked)
      ensures marked != old(marked) || |gray| < old(|gray|)
      ensures old(Filed(Again(next), NULL)) ==> Filed(Again(next), NULL)
      ensures old(Tables()) ==> Tables()
    {
      hide Visited, Forced, InHeap;
      var o := gray[0];
      assert gray == [o] + gray[1..];
      gray := gray[1..];
      Popped(o, gray, Again(next));
      if o in w.entries {
        var _ := TraverseEphemeron(o, next);
      } else {
        var _ := MarkRefs(o, Again(next));
        VisitedAll(o, Again(next));
      }
    }

    /** An object that is no weak table is done with once what it refers to is marked. */
    lemma VisitedAll(o: Ptr, again: set<Ptr>)
      requires Working(again, o) && RefsIn(w, marked, o) && o !in w.entries
      ensures Worked(w, marked, gray, again)
      ensures Filed(again, o) ==> Filed(again, NULL)
    {
      assert Settled(w, marked, o);
    }

    /** Visits the gray objects until none is left. */
    method PropagateAll(ghost next: seq<Ptr>)
      requires InHeap(w) && Worked(w, marked, gray, Again(next))
      modifies this`marked, this`gray, this`ephemeron, this`allweak, this`grayagain
      ensures Worked(w, marked, gray, Again(next)) && Forced(w, old(marked), marked) && gray == []
      ensures old(Filed(Again(next), NULL)) ==> Filed(Again(next), NULL)
      ensures old(Tables()) ==> Tables()
    {
      hide Worked, Forced, InHeap, Filed;
      ghost var m, tables, filed := marked, Tables(), Filed(Again(next), NULL);
      ForcedRefl(w, m);
      while gray != []
        invariant filed ==> Filed(Again(next), NULL)
        invariant tables ==> Tables()
        invariant Worked(w, marked, gray, Again(next)) && Forced(w, m, marked)
        decreases |w.refs.Keys - marked|, |gray|
      {
        ghost var m1 := marked;
        PropagateMark(next);
        ForcedMore(w, m1, marked, gray, Again(next));
        ForcedTrans(w, m, m1, marked);
        Fewer(w.refs.Keys, m1, marked);
      }
    }

    lemma AllFiled()
      requires InHeap(w) && Worked(w, marked, [], Again([])) && gray == [] && Filed(Again([]), NULL)
      ensures forall t <- marked :: Clears(w, marked, t) ==> t in ephemeron || t in allweak
    {
    }

    /** Visits the tables in the list again and again until a whole round marks nothing: what is then
        marked is the least set that holds the old marks and is closed. */
    method ConvergeEphemerons()
      requires InHeap(w) && Worked(w, marked, gray, Again([])) && gray == [] && Tables()
      requires Filed(Again([]), NULL)
      modifies this`marked, this`gray, this`ephemeron, this`allweak, this`grayagain
      ensures Saturated(w, marked) && Forced(w, old(marked), marked) && Tables()
      ensures forall t <- marked :: Clears(w, marked, t) ==> t in ephemeron || t in allweak
    {
      hide Clears, Worked, Forced, InHeap;
      ghost var m := marked;
      ForcedRefl(w, m);
      var changed := true;
      while changed
        invariant Worked(w, marked, gray, Again([])) && gray == [] && Forced(w, m, marked)
        invariant Tables() && Filed(Again([]), NULL)
        invariant !changed ==> forall t <- ephemeron :: TableOk(w, marked, t)
        decreases |w.refs.Keys - marked|, if changed then 1 else 0
      {
        ghost var m1 := marked;
        changed := Round();
        ForcedTrans(w, m, m1, marked);
        ForcedMore(w, m1, marked, gray, Again([]));
        Fewer(w.refs.Keys, m1, marked);
      }
      AllVisited(w, marked, ephemeron);
      AllFiled();
    }

    /** Visits one table of the round again. */
    method Revisit(t: Ptr, ghost next: seq<Ptr>) returns (changed: bool)
      requires InHeap(w) && Worked(w, marked, gray, Again([t] + next)) && gray == [] && Tables() && t in w.entries
      requires Filed(Again([t] + next), NULL)
      modifies this`marked, this`gray, this`ephemeron, this`allweak, this`grayagain
      ensures Worked(w, marked, gray, Again(next)) && gray == [] && Forced(w, old(marked), marked)
      ensures Tables() && Filed(Again(next), NULL)
      ensures changed ==> marked != old(marked)
      ensures !changed ==> forall u <- ephemeron :: (u in old(ephemeron) ==> TableOk(w, old(marked), u)) ==>
                TableOk(w, marked, u)
    {
      hide Clears, TableOk, Forced, Gives;
      ghost var m, before := marked, ephemeron;
      Taken(t, next);
      changed := TraverseEphemeron(t, next);
      if changed {
        ghost var m1 := marked;
        PropagateAll(next);
        ForcedTrans(w, m, m1, marked);
        Grown(w, m, m1);
        Grown(w, m1, marked);
      } else {
        Grown(w, m, marked);
        forall u | u in ephemeron && (u in before ==> TableOk(w, m, u)) ensures TableOk(w, marked, u) {
          if u in before { StillOk(w, m, marked, u); }
        }
      }
    }

    /** The first table of the list is about to be visited. */
    lemma Taken(t: Ptr, next: seq<Ptr>)
      requires InHeap(w) && Worked(w, marked, gray, Again([t] + next)) && gray == []
      ensures t in marked && Working(Again(next), t)
      ensures Filed(Again([t] + next), NULL) ==> Filed(Again(next), t)
    {
      hide Clears, RefsIn, Settled;
      assert t in [t] + next;
      assert Again([t] + next) == Again(next) + {t};
    }

    /** One round over the list of tables. */
    method Round() returns (changed: bool)
      requires InHeap(w) && Worked(w, marked, gray, Again([])) && gray == [] && Tables()
      requires Filed(Again([]), NULL)
      modifies this`marked, this`gray, this`ephemeron, this`allweak, this`grayagain
      ensures Worked(w, marked, gray, Again([])) && gray == [] && Forced(w, old(marked), marked)
      ensures Tables() && Filed(Again([]), NULL)
      ensures changed ==> marked != old(marked)
      ensures !changed ==> forall t <- ephemeron :: TableOk(w, marked, t)
    {
      hide Clears, Worked, Forced, InHeap, TableOk, Filed;
      ghost var m := marked;
      ForcedRefl(w, m);
      var next := ephemeron;
      ghost var again := Again([]);
      ephemeron := [];
      assert Again(next) == again;
      changed := false;
      while next != []
        invariant Worked(w, marked, gray, Again(next)) && gray == [] && Forced(w, m, marked) && m <= marked
        invariant (forall t <- next :: t in w.entries) && Tables()
        invariant Filed(Again(next), NULL)
        invariant changed ==> marked != m
        invariant !changed ==> forall t <- ephemeron :: TableOk(w, marked, t)
        decreases |next|
      {
        var t := next[0];
        ghost var m1 := marked;
        assert next == [t] + next[1..];
        next := next[1..];
        var c := Revisit(t, next);
        Grown(w, m1, marked);
        ForcedTrans(w, m, m1, marked);
        changed := changed || c;
      }
    }

    /** Takes the entries whose keys are to be cleared out of a table. */
    method ClearTable(t: Ptr, entries: map<Ptr, seq<Entry>>) returns (left: map<Ptr, seq<Entry>>)
      requires t in entries
      ensures left == entries[t := Kept(w, marked, entries[t])]
    {
      var es, i := [], 0;
      while i < |entries[t]|
        invariant 0 <= i <= |entries[t]| && es + Kept(w, marked, entries[t][i..]) == Kept(w, marked, entries[t])
      {
        assert entries[t][i..][1..] == entries[t][i + 1..];
        if !Cleared(w, marked, entries[t][i].key) {
          es := es + [entries[t][i]];
        }
        i := i + 1;
      }
      assert entries[t][i..] == [] && es + [] == es;
      left := entries[t := es];
    }

    /** Does so for the tables of a list. */
    method ClearKeys(ts: seq<Ptr>, entries: map<Ptr, seq<Entry>>) returns (left: map<Ptr, seq<Entry>>)
      requires forall t <- ts :: t in entries
      ensures left.Keys == entries.Keys
      ensures forall t | t in entries :: left[t] == if t in ts then Kept(w, marked, entries[t]) else entries[t]
    {
      hide Kept, Cleared;
      left := entries;
      var i := 0;
      while i < |ts|
        invariant 0 <= i <= |ts| && left.Keys == entries.Keys
        invariant forall t | t in entries :: left[t] == if t in ts[..i] then Kept(w, marked, entries[t]) else entries[t]
      {
        KeptTwice(w, marked, entries[ts[i]]);
        assert ts[..i + 1] == ts[..i] + [ts[i]];
        left := ClearTable(ts[i], left);
        i := i + 1;
      }
      assert ts[..i] == ts;
    }

    /** The end of the atomic step: an entry of a marked table is left exactly if its key is alive, and then its
        value is alive too. */
    method ClearDead() returns (left: map<Ptr, seq<Entry>>)
      requires InHeap(w) && Saturated(w, marked) && Tables()
      requires forall t <- marked :: Clears(w, marked, t) ==> t in ephemeron || t in allweak
      ensures left.Keys == w.entries.Keys
      ensures forall t | t in w.entries && t in marked ::
                && left[t] == Kept(w, marked, w.entries[t])
                && forall e <- left[t] :: e in w.entries[t] && !Cleared(w, marked, e.key) && EntrySettled(w, marked, e)
    {
      hide InHeap, Clears, EntrySettled, Kept;
      left := ClearKeys(ephemeron, w.entries);
      ghost var first := left;
      left := ClearKeys(allweak, left);
      forall t | t in w.entries && t in marked
        ensures left[t] == Kept(w, marked, w.entries[t])
        ensures forall e <- left[t] :: e in w.entries[t] && !Cleared(w, marked, e.key) && EntrySettled(w, marked, e)
      {
        KeptTwice(w, marked, w.entries[t]);
        NoneCleared(w, marked, t);
        KeptSettled(w, marked, t);
      }
    }
  }

  /** The entries whose keys are not to be cleared. */
  function Kept(w: Weak, m: set<Ptr>, es: seq<Entry>): seq<Entry> {
    if es == [] then [] else (if Cleared(w, m, es[0].key) then [] else [es[0]]) + Kept(w, m, es[1..])
  }

  lemma {:induction false} KeptTwice(w: Weak, m: set<Ptr>, es: seq<Entry>)
    ensures Kept(w, m, Kept(w, m, es)) == Kept(w, m, es)
    ensures forall e :: e in Kept(w, m, es) <==> e in es && !Cleared(w, m, e.key)
  {
    if es != [] {
      KeptTwice(w, m, es[1..]);
      assert es == [es[0]] + es[1..];
      var ks := Kept(w, m, es[1..]);
      if Cleared(w, m, es[0].key) {
        assert [] + ks == ks;
      } else {
        assert ([es[0]] + ks)[1..] == ks;
      }
    }
  }

  lemma {:induction false} AllKept(w: Weak, m: set<Ptr>, es: seq<Entry>)
    requires forall i | 0 <= i < |es| :: !Cleared(w, m, es[i].key)
    ensures Kept(w, m, es) == es
  {
    if es != [] { AllKept(w, m, es[1..]); }
  }

  lemma NoneCleared(w: Weak, m: set<Ptr>, t: Ptr)
    requires t in w.entries
    ensures !Clears(w, m, t) ==> Kept(w, m, w.entries[t]) == w.entries[t]
  {
    if !Clears(w, m, t) { AllKept(w, m, w.entries[t]); }
  }

  /** In a closed marking, an entry that is kept has a marked value. */
  lemma KeptSettled(w: Weak, m: set<Ptr>, t: Ptr)
    requires Saturated(w, m) && t in m && t in w.entries
    ensures forall e <- Kept(w, m, w.entries[t]) ::
              e in w.entries[t] && !Cleared(w, m, e.key) && EntrySettled(w, m, e)
  {
    KeptTwice(w, m, w.entries[t]);
    assert TableOk(w, m, t);
  }

  lemma Fewer(all: set<Ptr>, m: set<Ptr>, m': set<Ptr>)
    requires m <= m' <= all
    ensures |all - m'| <= |all - m| && (m != m' ==> |all - m'| < |all - m|)
  {
    assert all - m' <= all - m;
    if m != m' { assert all - m' < all - m; }
    Smaller(all - m', all - m);
  }

  lemma {:induction false} Smaller(a: set<Ptr>, b: set<Ptr>)
    requires a <= b
    ensures |a| <= |b| && (a != b ==> |a| < |b|)
  {
    if a != {} {
      var x :| x in a;
      Smaller(a - {x}, b - {x});
    }
  }

  /** Marking strings clears no key and so leaves the entries alone. */
  lemma StillOk(w: Weak, m: set<Ptr>, m': set<Ptr>, t: Ptr)
    requires m <= m' && m' - m <= w.strings && TableOk(w, m, t)
    ensures TableOk(w, m', t)
  {
    if t in w.entries {
      forall e | e in w.entries[t] ensures EntryOk(w, m', e) { assert EntryOk(w, m, e); }
    }
  }
}

/**
 * The per-thread pool of return thunks of the profiler agent.
 *
 * A thunk is a slot standing in for the real return address of one live,
 * instrumented call. Slots live in pages of `thunksPerPage` slots
 * (kNumThunksPerPage); pages are appended on demand and never freed. A single
 * cursor marks the next free slot: MakeThunk hands out the slot at the cursor
 * and advances it, and firing a thunk (ThunkMain) notifies the delegate and
 * moves the cursor back to that slot, which frees every deeper slot at once.
 *
 * A thunk is identified by its page and its offset inside that page, which is
 * what a slot's address amounts to.
 */
module ReturnThunkFactory {

  /** The raw timing value the trampoline hands to ThunkMain; passed through unchanged. */
  newtype uint64 = x: int | 0 <= x < 0x1_0000_0000_0000_0000

  /** A slot: the index of the page that holds it and its position in that page. */
  datatype Thunk = Thunk(page: nat, offset: nat)

  /** One call of Delegate::OnFunctionExit: the thunk that fired and its timing value. */
  datatype FunctionExit = FunctionExit(thunk: Thunk, time: uint64)

  /** A thunk that may be NULL, as `previous_thunk` is before the first allocation. */
  datatype Option<T> = None | Some(value: T)

  // ---------------------------------------------------------------------------
  // Slot order

  /** `a` precedes `b` in the order slots are handed out: an earlier page, or
      a lower position in the same page. */
  predicate Before(a: Thunk, b: Thunk) {
    a.page < b.page || (a.page == b.page && a.offset < b.offset)
  }

  /** The slot handed out right after `t`: the next position in the same page,
      or the first slot of the next page when `t` is the last of its page. */
  function Next(thunksPerPage: nat, t: Thunk): (r: Thunk)
    requires t.offset < thunksPerPage
    ensures r.offset < thunksPerPage && Before(t, r)
  {
    if t.offset + 1 == thunksPerPage then Thunk(t.page + 1, 0) else Thunk(t.page, t.offset + 1)
  }

  /** No slot lies strictly between `t` and `Next(t)`: every slot after `t`
      is `Next(t)` or comes after it. */
  lemma NextIsLeast(thunksPerPage: nat, t: Thunk, u: Thunk)
    requires t.offset < thunksPerPage && u.offset < thunksPerPage
    requires Before(t, u)
    ensures u == Next(thunksPerPage, t) || Before(Next(thunksPerPage, t), u)
  {
  }

  // ---------------------------------------------------------------------------
  // The stored return addresses, as the shadow call stack they form

  /** The contents of `pages`, page after page. */
  function Flatten(pages: seq<seq<int>>): seq<int> {
    if pages == [] then [] else Flatten(pages[..|pages| - 1]) + pages[|pages| - 1]
  }

  /** The return addresses stored in every slot before slot `t`, in order. */
  function Below(pages: seq<seq<int>>, t: Thunk): seq<int>
    requires t.page <= |pages| && (t.page < |pages| ==> t.offset <= |pages[t.page]|)
  {
    Flatten(pages[..t.page]) + if t.page < |pages| then pages[t.page][..t.offset] else []
  }

  /** Flattening more pages only extends the result. */
  lemma {:induction false} FlattenPrefix(pages: seq<seq<int>>, i: nat, j: nat)
    requires i <= j <= |pages|
    ensures Flatten(pages[..i]) <= Flatten(pages[..j])
    decreases j
  {
    if i < j {
      FlattenPrefix(pages, i, j - 1);
      assert pages[..j][..j - 1] == pages[..j - 1];
    }
  }

  /** When slot `a` precedes slot `b`, the addresses below `a` followed by the
      one stored in `a` are a prefix of the addresses below `b`. */
  lemma BelowBefore(pages: seq<seq<int>>, a: Thunk, b: Thunk)
    requires a.page < |pages| && a.offset < |pages[a.page]|
    requires b.page <= |pages| && (b.page < |pages| ==> b.offset <= |pages[b.page]|)
    requires Before(a, b)
    ensures Below(pages, a) + [pages[a.page][a.offset]] <= Below(pages, b)
  {
    var p := pages[a.page];
    assert p[..a.offset] + [p[a.offset]] == p[..a.offset + 1];
    if a.page < b.page {
      assert pages[..a.page + 1][..a.page] == pages[..a.page];
      assert Flatten(pages[..a.page + 1]) == Flatten(pages[..a.page]) + p;
      FlattenPrefix(pages, a.page + 1, b.page);
    }
  }

  /** Storing `r` in slot `t` and moving past it adds `r` on top of the
      addresses below `t`. */
  lemma BelowStore(pages: seq<seq<int>>, thunksPerPage: nat, t: Thunk, r: int)
    requires forall p :: 0 <= p < |pages| ==> |pages[p]| == thunksPerPage
    requires t.page < |pages| && t.offset < thunksPerPage
    ensures Below(pages[t.page := pages[t.page][t.offset := r]], Next(thunksPerPage, t)) ==
      Below(pages, t) + [r]
    ensures Below(pages[t.page := pages[t.page][t.offset := r]], t) == Below(pages, t)
  {
    var after := pages[t.page := pages[t.page][t.offset := r]];
    var s := after[t.page];
    assert after[..t.page] == pages[..t.page];
    assert s[..t.offset + 1] == pages[t.page][..t.offset] + [r];
    if t.offset + 1 == thunksPerPage {
      assert after[..t.page + 1][..t.page] == after[..t.page];
      assert s == s[..t.offset + 1];
    }
  }

  // ---------------------------------------------------------------------------
  // The factory

  class Factory {
    /** kNumThunksPerPage: the number of thunk slots in each page. */
    const thunksPerPage: nat
    /** The pages, oldest first; each array holds the real return addresses stored in its slots. */
    var pages: seq<array<int>>
    /** The next free slot; every slot before it is live. */
    var cursor: Thunk

    /** Public view: the stored return addresses, page by page. */
    ghost var Slots: seq<seq<int>>
    /** Public view: the delegate's OnFunctionExit notifications, oldest first. */
    ghost var Exits: seq<FunctionExit>
    ghost var Repr: set<object>

    ghost predicate Valid()
      reads this, Repr
    {
      this in Repr && thunksPerPage > 0 &&
      |Slots| == |pages| &&
      (forall p :: 0 <= p < |pages| ==>
        pages[p] in Repr && pages[p].Length == thunksPerPage && Slots[p] == pages[p][..]) &&
      (forall p, q :: 0 <= p < q < |pages| ==> pages[p] != pages[q]) &&
      cursor.offset < thunksPerPage && cursor.page <= |pages| &&
      (cursor.page == |pages| ==> cursor.offset == 0)
    }

    /** `t` is a slot of an allocated page. */
    ghost predicate Allocated(t: Thunk)
      reads this
    {
      t.page < |pages| && t.offset < thunksPerPage
    }

    /** The real return addresses of the currently open calls, outermost first. */
    ghost function Live(): seq<int>
      reads this, Repr
      requires Valid()
    {
      Below(Slots, cursor)
    }

    /** The page object that holds slot `t`: one of the factory's pages, whose
        contents are the addresses stored in `t`'s page. */
    function PageFromThunk(t: Thunk): (page: array<int>)
      reads this, Repr
      requires Valid() && Allocated(t)
      ensures page in Repr && page.Length == thunksPerPage && page[..] == Slots[t.page]
    {
      pages[t.page]
    }

    /** Two slots lie in the same page object exactly when their page indices
        agree: distinct pages are distinct objects. */
    lemma SamePage(a: Thunk, b: Thunk)
      requires Valid() && Allocated(a) && Allocated(b)
      ensures PageFromThunk(a) == PageFromThunk(b) <==> a.page == b.page
    {
    }

    /** An empty factory reporting to a delegate that has not been notified yet. */
    constructor (thunksPerPage: nat)
      requires thunksPerPage > 0
      ensures Valid() && fresh(Repr)
      ensures this.thunksPerPage == thunksPerPage
      ensures pages == [] && cursor == Thunk(0, 0) && Live() == [] && Exits == []
    {
      this.thunksPerPage := thunksPerPage;
      pages := [];
      cursor := Thunk(0, 0);
      Slots := [];
      Exits := [];
      Repr := {this};
    }

    /** Appends a fresh page once the cursor has run past every existing page. */
    method AddPage()
      requires Valid() && cursor.page == |pages|
      modifies this`pages, this`Slots, this`Repr
      ensures Valid() && fresh(Repr - old(Repr))
      ensures |pages| == old(|pages|) + 1 && pages[..old(|pages|)] == old(pages) && fresh(pages[old(|pages|)])
      ensures |Slots| == old(|Slots|) + 1 && Slots[..old(|Slots|)] == old(Slots)
      ensures |Slots[old(|Slots|)]| == thunksPerPage
      ensures Live() == old(Live())
    {
      var page := new int[thunksPerPage];
      pages := pages + [page];
      Slots := Slots + [page[..]];
      Repr := Repr + {page};
      assert Slots[..cursor.page] == old(Slots)[..cursor.page];
      assert Slots[cursor.page][..cursor.offset] == [];
    }

    /** Stores `realRet` in the slot at the cursor, appending a page first when
        the cursor is past every page, and hands that slot out as the thunk. */
    method MakeThunk(realRet: int) returns (thunk: Thunk)
      requires Valid()
      modifies Repr
      ensures Valid() && fresh(Repr - old(Repr))
      ensures thunk == old(cursor) && cursor == Next(thunksPerPage, thunk)
      ensures Allocated(thunk) && Slots[thunk.page][thunk.offset] == realRet
      ensures old(|Slots|) <= |Slots|
      ensures Live() == old(Live()) + [realRet]
      ensures Below(Slots, thunk) == old(Live())
      ensures forall p :: 0 <= p < old(|Slots|) && p != thunk.page ==> Slots[p] == old(Slots)[p]
      ensures thunk.page < old(|Slots|) ==>
        Slots[thunk.page] == old(Slots)[thunk.page][thunk.offset := realRet]
      ensures old(cursor.page) < old(|pages|) ==> pages == old(pages)
      ensures old(cursor.page) == old(|pages|) ==>
        |pages| == old(|pages|) + 1 && pages[..old(|pages|)] == old(pages) && fresh(pages[old(|pages|)])
      ensures Exits == old(Exits)
    {
      if cursor.page == |pages| {
        AddPage();
      }
      thunk := cursor;
      BelowStore(Slots, thunksPerPage, thunk, realRet);
      var page := pages[thunk.page];
      page[thunk.offset] := realRet;
      Slots := Slots[thunk.page := Slots[thunk.page][thunk.offset := realRet]];
      cursor := Next(thunksPerPage, thunk);
    }

    /** Fires `thunk`: notifies the delegate with the thunk and `time`, moves
        the cursor back to the thunk's slot (freeing it and every deeper one)
        and returns the real return address stored in it. */
    method ThunkMain(thunk: Thunk, time: uint64) returns (realRet: int)
      requires Valid() && Allocated(thunk)
      modifies this`cursor, this`Exits
      ensures Valid()
      ensures realRet == Slots[thunk.page][thunk.offset]
      ensures Exits == old(Exits) + [FunctionExit(thunk, time)]
      ensures cursor == thunk
      ensures Before(thunk, old(cursor)) ==> Live() + [realRet] <= old(Live())
    {
      Exits := Exits + [FunctionExit(thunk, time)];
      if Before(thunk, cursor) {
        BelowBefore(Slots, thunk, cursor);
      }
      cursor := thunk;
      realRet := pages[thunk.page][thunk.offset];
    }
  }
}

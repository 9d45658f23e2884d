# ReturnThunkFactory: the profiler's pool of return thunks

The profiler agent intercepts function exits by swapping a call's real return
address for a *thunk*. A thunk is a slot in a per-thread pool. When the
function returns, control lands in the thunk. `ThunkMain` then notifies the
delegate (`Delegate::OnFunctionExit`) and hands back the real return address.

The pool is an arena plus a cursor:

- slots live in pages of `kNumThunksPerPage` slots;
- pages are appended on demand and never freed;
- the cursor marks the next free slot, and every slot before it is live;
- `MakeThunk(real_ret)` stores `real_ret` in the slot at the cursor and advances the cursor;
- firing a thunk moves the cursor back to that thunk's slot, which frees every deeper slot at once, in LIFO order.

The model has two modules.

`ReturnThunkFactory` (`return_thunk_factory.dfy`):

- Holds the class `Factory`. Its fields are the pages (`seq<array<int>>`, one array of stored return addresses per page) and the cursor. Its methods update these in place.
- Two ghost fields give the public view:
  - `Slots`: the stored return addresses, page by page;
  - `Exits`: the delegate's notifications, in order.
- `Live()` is the shadow call stack the live slots form: the addresses stored below the cursor, outermost first.
- `Valid()` is the class invariant. Every page has `kNumThunksPerPage` slots and the pages are distinct objects. The cursor never goes past capacity: it is a slot of an existing page, or the first slot of the page after the last one.

`ReturnThunkFactoryTests` (`return_thunk_factory_tests.dfy`):

- Replays each unit-test scenario against a fresh factory. What the test asserts becomes the postcondition of the method that plays it.
- The loops call `MakeThunk` through `Allocate`, which passes on only the part of its contract that the scenarios use.

A thunk is identified by the pair (page, offset), which is what a slot's
address amounts to:

- `Factory.PageFromThunk` gives the page object that holds a slot. `Factory.SamePage` shows that two slots share a page object exactly when their page indices agree, so the scenarios compare page indices.
- `Before` is the order in which slots are handed out. It is the order of addresses within a page.
- `Next` is the slot handed out right after a given one.

`kNumThunksPerPage` is a constructor parameter (`thunksPerPage > 0`), so every
proof holds for any page size. The timing value is a `uint64` that is passed
through unchanged to the ghost log `Exits`, which plays the delegate.

The factory's own implementation file is not part of this model. Its behaviour
is taken from what `syzygy/agent/profiler/return_thunk_factory_unittests.cc`
asserts. Where that leaves a choice open, the model makes the smallest choice
that meets every assertion:

- A page is appended lazily, inside `MakeThunk`, when the cursor has run past every page. A fresh factory has no pages.
- `ThunkMain` is static in the source and reaches its factory through the thunk. Here it is a method of the factory that owns the thunk.
- `ThunkMain` demands only that the thunk is a slot of an existing page. It then sets the cursor to that slot, whether or not the slot was live.

## Model

| member | source | states |
|---|---|---|
| `ReturnThunkFactory.Next` | syzygy/agent/profiler/return_thunk_factory_unittests.cc:101-104 | The slot handed out after `t` is a slot of some page and comes strictly after `t`: it is in a later page, or in the same page at a higher position. |
| `ReturnThunkFactory.NextIsLeast` | syzygy/agent/profiler/return_thunk_factory_unittests.cc:101-104 | No slot lies strictly between `t` and the slot handed out after it, so consecutive allocations skip nothing. |
| `ReturnThunkFactory.BelowStore` | syzygy/agent/profiler/return_thunk_factory_unittests.cc:76-80 | Storing a return address in slot `t` and moving past it pushes that address on top of the shadow stack below `t`. |
| `ReturnThunkFactory.BelowBefore` | syzygy/agent/profiler/return_thunk_factory_unittests.cc:114-126 | When slot `a` precedes slot `b`, the stack below `a` followed by `a`'s own address is a prefix of the stack below `b`. Cutting the stack back to `a` drops exactly the deeper calls. |
| `ReturnThunkFactory.FlattenPrefix` | syzygy/agent/profiler/return_thunk_factory_unittests.cc:129-153 | The addresses stored in the first `i` pages are a prefix of those stored in the first `j >= i` pages: pages only extend the stack. |
| `ReturnThunkFactory.Factory.PageFromThunk` | syzygy/agent/profiler/return_thunk_factory_unittests.cc:136-138 | For a slot of an existing page, the page object returned is one of the factory's pages, has `kNumThunksPerPage` slots, and holds the addresses stored in that slot's page. |
| `ReturnThunkFactory.Factory.SamePage` | syzygy/agent/profiler/return_thunk_factory_unittests.cc:101-104 | Two slots of existing pages lie in the same page object if and only if their page indices are equal. |
| `ReturnThunkFactory.Factory.constructor` | syzygy/agent/profiler/return_thunk_factory_unittests.cc:34-35 | A new factory is valid, with no pages, the cursor at the first slot, no live thunks and no notifications. |
| `ReturnThunkFactory.Factory.AddPage` | syzygy/agent/profiler/return_thunk_factory_unittests.cc:130-138 | Appends one fresh page of `kNumThunksPerPage` slots once the cursor has run past every page. Existing pages, their contents and the live stack are unchanged. |
| `ReturnThunkFactory.Factory.MakeThunk` | syzygy/agent/profiler/return_thunk_factory_unittests.cc:98-106 | Returns the slot at the old cursor, which is a slot of an existing page and now holds `real_ret`. The cursor moves to the next slot, and the live stack gains `real_ret` on top. The addresses below the handed-out slot are exactly the old live stack, so firing that thunk next restores it. No other slot changes. A page is appended exactly when the cursor had run past every page; otherwise the pages stay the same objects. The delegate is not notified. |
| `ReturnThunkFactory.Factory.ThunkMain` | syzygy/agent/profiler/return_thunk_factory_unittests.cc:119-121 | Notifies the delegate exactly once with (thunk, time) and returns the address stored in the thunk. The cursor is set to the thunk's slot. When a live thunk fires, the new live stack followed by the fired address is a prefix of the old live stack: exactly the calls below the thunk stay open. No slot and no page changes. |
| `ReturnThunkFactoryTests.AllocateSeveralPages` | syzygy/agent/profiler/return_thunk_factory_unittests.cc:96-107 | `3 * kNumThunksPerPage` allocations with no firing each give a slot of an existing page. Each thunk is the slot right after the previous one, so it lies in another page or above the previous thunk. The delegate is never notified, as the strict mock demands. Exactly three pages exist at the end: the test does not assert this; it follows from pages being added only on demand. |
| `ReturnThunkFactoryTests.ReturnViaThunk` | syzygy/agent/profiler/return_thunk_factory_unittests.cc:109-112 | Returning through a fresh thunk for `real_ret` resumes at `real_ret` and leaves no call open. The delegate receives exactly one notification, for that thunk and that timing value. |
| `ReturnThunkFactoryTests.ReuseThunks` | syzygy/agent/profiler/return_thunk_factory_unittests.cc:114-127 | After A, B, C, firing A and three more allocations, the third new thunk is C. The delegate is notified once, for A. |
| `ReturnThunkFactoryTests.ReusePages` | syzygy/agent/profiler/return_thunk_factory_unittests.cc:129-153 | The first thunk and thunk `kNumThunksPerPage + 1` lie in different page objects; the latter is the first slot of the second page. After firing the first thunk, `kNumThunksPerPage + 1` new allocations end on that same thunk, and the page list is the same two page objects. The delegate is notified exactly once, for the first thunk. |

## Left out

- The inline x86 routine `create_and_return_via_thunk` (lines 68-91): its register, flag and stack-slot handling is native control transfer. It is represented only as "`MakeThunk(r)`, then `ThunkMain(thunk, t)` returns `r`" (`ReturnViaThunk`).
- The static `factory_` pointer and the `StaticMakeHook` trampoline (lines 53-64): test plumbing for reaching an instance from a fixed native entry point.
- The gmock/gtest machinery (`MockDelegate`, `StrictMock`, `EXPECT_CALL`): the delegate is the ghost log `Exits`. A strict mock with no expectation becomes "`Exits` is unchanged".
- Pointer layout: a thunk is a (page, offset) pair, not an address. `thunk > previous_thunk` is compared only within a page, where it is the offset order, and the page test compares page indices, which `Factory.SamePage` shows equivalent to comparing page objects. Each slot's back-pointer to its factory and the shared entry code are not modelled.
- The cycle-counter value passed to `ThunkMain`: an opaque `uint64` passed through to the delegate.
- Page allocation failure and per-thread binding: neither is exercised by the tests. A new page always succeeds here.
- The factory's implementation (`return_thunk_factory.h/.cc`) is not part of this model. Whether its constructor allocates the first page eagerly is not visible, and the model allocates every page on demand.
- ThunkMain: the live-stack postcondition covers only live thunks (slots before the cursor). Firing a slot at or above the cursor is allowed, but its effect on the live stack is stated only through the new cursor.

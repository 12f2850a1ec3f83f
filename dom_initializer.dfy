/**
 * The DOM-ready callback queue: callbacks registered with a priority, kept
 * in ascending priority order (ties in registration order), run together
 * once the document has loaded, or at once when it already has.
 */
module DomInitializer {

  import opened Wrappers

  /** A callback, named by an identifier; `throws` says whether calling it
      raises an exception.  What it does besides is outside this model. */
  datatype Callback = Callback(id: nat, throws: bool)

  /** The first argument of `onReady`: a function, or any other value. */
  datatype Arg = Function(cb: Callback) | NotFunction

  /** The `{ callback, priority }` record kept in the list. */
  datatype Entry = Entry(callback: Callback, priority: int)

  /** What the queue does that can be observed: a callback starts, an
      exception from a callback is caught and reported, or a non-function
      is refused with an error message. */
  datatype Event = Ran(id: nat) | Caught(id: nat) | Rejected

  /** The priority given when the caller passes none. */
  const DefaultPriority: int := 100

  function PriorityOf(priority: Option<int>): (p: int)
    ensures priority == None ==> p == DefaultPriority
    ensures priority.Some? ==> p == priority.value
  {
    if priority.Some? then priority.value else DefaultPriority
  }

  // ---------------------------------------------------------------------
  // Ordering: the stable sort by ascending priority
  // ---------------------------------------------------------------------

  predicate SortedByPriority(s: seq<Entry>) {
    forall i, j :: 0 <= i < j < |s| ==> s[i].priority <= s[j].priority
  }

  /** The entries of priority `p`, in list order. */
  function WithPriority(s: seq<Entry>, p: int): seq<Entry>
    decreases |s|
  {
    if s == [] then []
    else WithPriority(s[..|s| - 1], p) + (if s[|s| - 1].priority == p then [s[|s| - 1]] else [])
  }

  /** `e` placed after every entry whose priority is not above its own. */
  function InsertStable(s: seq<Entry>, e: Entry): (r: seq<Entry>)
    ensures multiset(r) == multiset(s) + multiset{e}
    decreases |s|
  {
    if s == [] then [e]
    else if s[|s| - 1].priority <= e.priority then s + [e]
    else
      var init := s[..|s| - 1];
      assert s == init + [s[|s| - 1]];
      InsertStable(init, e) + [s[|s| - 1]]
  }

  /** A stable sort by ascending priority: the reference for
      `callbacks.sort((a, b) => a.priority - b.priority)`. */
  function SortByPriority(s: seq<Entry>): (r: seq<Entry>)
    ensures multiset(r) == multiset(s)
    decreases |s|
  {
    if s == [] then []
    else
      var init := s[..|s| - 1];
      assert s == init + [s[|s| - 1]];
      InsertStable(SortByPriority(init), s[|s| - 1])
  }

  /** Inserting into a sorted list keeps it sorted. */
  lemma {:induction false} InsertSorted(s: seq<Entry>, e: Entry)
    requires SortedByPriority(s)
    ensures SortedByPriority(InsertStable(s, e))
    decreases |s|
  {
    if s != [] && s[|s| - 1].priority > e.priority {
      var init := s[..|s| - 1];
      var last := s[|s| - 1];
      InsertSorted(init, e);
      var r0 := InsertStable(init, e);
      forall x | x in r0 ensures x.priority <= last.priority {
        assert x in multiset(r0);
        if x != e {
          assert x in multiset(init);
        }
      }
      var r := r0 + [last];
      forall i, j | 0 <= i < j < |r| ensures r[i].priority <= r[j].priority {
        if j == |r| - 1 {
          assert r[i] in r0;
        }
      }
    }
  }

  /** Inserting keeps each priority's entries in order and puts `e` after
      those of its own priority. */
  lemma {:induction false} InsertKeepsOrder(s: seq<Entry>, e: Entry, p: int)
    requires SortedByPriority(s)
    ensures WithPriority(InsertStable(s, e), p)
         == WithPriority(s, p) + (if e.priority == p then [e] else [])
    decreases |s|
  {
    if s == [] {
      assert WithPriority([e], p) == WithPriority([], p) + (if e.priority == p then [e] else []);
    } else if s[|s| - 1].priority <= e.priority {
      assert (s + [e])[..|s|] == s;
    } else {
      var init := s[..|s| - 1];
      var last := s[|s| - 1];
      InsertKeepsOrder(init, e, p);
      var r0 := InsertStable(init, e);
      assert InsertStable(s, e) == r0 + [last];
      assert (r0 + [last])[..|r0|] == r0;
      var fe := if e.priority == p then [e] else [];
      var fl := if last.priority == p then [last] else [];
      assert WithPriority(r0 + [last], p) == WithPriority(init, p) + fe + fl;
      assert fe + fl == fl + fe by {
        if fe != [] {
          assert fl == [];
        }
      }
    }
  }

  /** The sort's result is in ascending priority order. */
  lemma {:induction false} SortSorted(s: seq<Entry>)
    ensures SortedByPriority(SortByPriority(s))
    decreases |s|
  {
    if s != [] {
      SortSorted(s[..|s| - 1]);
      InsertSorted(SortByPriority(s[..|s| - 1]), s[|s| - 1]);
    }
  }

  /** The sort is stable: the entries of every priority keep the order they
      had. */
  lemma {:induction false} SortStable(s: seq<Entry>, p: int)
    ensures WithPriority(SortByPriority(s), p) == WithPriority(s, p)
    decreases |s|
  {
    if s != [] {
      var init := s[..|s| - 1];
      SortStable(init, p);
      SortSorted(init);
      InsertKeepsOrder(SortByPriority(init), s[|s| - 1], p);
    }
  }

  /** A list already in order is left as it is. */
  lemma {:induction false} SortIdentity(s: seq<Entry>)
    requires SortedByPriority(s)
    ensures SortByPriority(s) == s
    decreases |s|
  {
    if s != [] {
      var init := s[..|s| - 1];
      SortIdentity(init);
      assert init + [s[|s| - 1]] == s;
    }
  }

  /** Sorting after one push onto an ordered list is one stable insertion. */
  lemma PushThenSort(s: seq<Entry>, e: Entry)
    requires SortedByPriority(s)
    ensures SortByPriority(s + [e]) == InsertStable(s, e)
  {
    assert (s + [e])[..|s|] == s;
    SortIdentity(s);
  }

  // ---------------------------------------------------------------------
  // Running the callbacks
  // ---------------------------------------------------------------------

  /** What calling one callback inside the `try` of `executeCallbacks`
      leaves in the log. */
  function RunGuarded(cb: Callback): seq<Event> {
    [Ran(cb.id)] + (if cb.throws then [Caught(cb.id)] else [])
  }

  /** `executeCallbacks` over `cs`. */
  function RunAll(cs: seq<Entry>): seq<Event>
    decreases |cs|
  {
    if cs == [] then [] else RunAll(cs[..|cs| - 1]) + RunGuarded(cs[|cs| - 1].callback)
  }

  /** The callbacks that started, in the order they started. */
  function Started(log: seq<Event>): seq<nat>
    decreases |log|
  {
    if log == [] then []
    else Started(log[..|log| - 1]) + (if log[|log| - 1].Ran? then [log[|log| - 1].id] else [])
  }

  /** The identifiers of the listed callbacks, in list order. */
  function Ids(cs: seq<Entry>): (r: seq<nat>)
    ensures |r| == |cs| && forall i :: 0 <= i < |cs| ==> r[i] == cs[i].callback.id
  {
    seq(|cs|, i requires 0 <= i < |cs| => cs[i].callback.id)
  }

  lemma {:induction false} StartedAppend(a: seq<Event>, b: seq<Event>)
    ensures Started(a + b) == Started(a) + Started(b)
    decreases |b|
  {
    if b == [] {
      assert a + b == a;
    } else {
      var init := b[..|b| - 1];
      StartedAppend(a, init);
      assert (a + b)[..|a + b| - 1] == a + init;
    }
  }

  /** An exception does not stop the loop: every callback of the list
      starts, exactly once and in list order. */
  lemma {:induction false} EveryCallbackStarts(cs: seq<Entry>)
    ensures Started(RunAll(cs)) == Ids(cs)
    decreases |cs|
  {
    if cs != [] {
      var init := cs[..|cs| - 1];
      var cb := cs[|cs| - 1].callback;
      EveryCallbackStarts(init);
      StartedAppend(RunAll(init), RunGuarded(cb));
      var g := RunGuarded(cb);
      assert Started(g) == [cb.id] by {
        if cb.throws {
          assert g[..1] == [Ran(cb.id)];
          assert Started([Ran(cb.id)]) == Started([]) + [cb.id];
        } else {
          assert Started(g) == Started([]) + [cb.id];
        }
      }
    }
  }

  /** A failing callback is reported right after it starts, and only
      failing callbacks are. */
  lemma FailureReported(cb: Callback)
    ensures Caught(cb.id) in RunGuarded(cb) <==> cb.throws
    ensures RunGuarded(cb)[0] == Ran(cb.id)
  {
  }

  // ---------------------------------------------------------------------
  // The queue's state and its operations
  // ---------------------------------------------------------------------

  /** `callbacks`, `isReady`, and the events seen so far. */
  datatype Queue = Queue(callbacks: seq<Entry>, isReady: bool, log: seq<Event>)

  /** The state the constructor leaves: `isReady` is whether the document
      had finished loading; the empty list runs nothing. */
  function Initial(ready: bool): Queue {
    Queue([], ready, [])
  }

  /** `onReady(arg, priority)`: the new state, and whether the immediate
      call threw out of `onReady`. */
  function Register(q: Queue, arg: Arg, priority: Option<int>): (Queue, bool) {
    if arg.NotFunction? then (q.(log := q.log + [Rejected]), false)
    else
      var e := Entry(arg.cb, PriorityOf(priority));
      var cs := SortByPriority(q.callbacks + [e]);
      if q.isReady then (q.(callbacks := cs, log := q.log + [Ran(arg.cb.id)]), arg.cb.throws)
      else (q.(callbacks := cs), false)
  }

  /** The `DOMContentLoaded` listener. */
  function Loaded(q: Queue): Queue {
    q.(isReady := true, log := q.log + RunAll(q.callbacks))
  }

  /** A non-function registers nothing and runs nothing: only the error
      message is added. */
  lemma RegisterRejects(q: Queue, priority: Option<int>)
    ensures Register(q, NotFunction, priority).0.callbacks == q.callbacks
    ensures Register(q, NotFunction, priority).0.isReady == q.isReady
    ensures Register(q, NotFunction, priority).0.log == q.log + [Rejected]
    ensures !Register(q, NotFunction, priority).1
  {
  }

  /** Registration keeps the list in ascending priority order, adds the
      one entry with the given or default priority, and places it after
      every entry of the same priority. */
  lemma RegisterOrders(q: Queue, cb: Callback, priority: Option<int>, p: int)
    requires SortedByPriority(q.callbacks)
    ensures SortedByPriority(Register(q, Function(cb), priority).0.callbacks)
    ensures multiset(Register(q, Function(cb), priority).0.callbacks)
         == multiset(q.callbacks) + multiset{Entry(cb, PriorityOf(priority))}
    ensures WithPriority(Register(q, Function(cb), priority).0.callbacks, p)
         == WithPriority(q.callbacks, p) + (if PriorityOf(priority) == p then [Entry(cb, PriorityOf(priority))] else [])
  {
    var e := Entry(cb, PriorityOf(priority));
    PushThenSort(q.callbacks, e);
    InsertSorted(q.callbacks, e);
    InsertKeepsOrder(q.callbacks, e, p);
  }

  /** Once the document is ready a registered callback runs once, at once,
      and an exception from it reaches the caller; before, it only waits. */
  lemma RegisterRunsWhenReady(q: Queue, cb: Callback, priority: Option<int>)
    ensures Register(q, Function(cb), priority).0.log == q.log + (if q.isReady then [Ran(cb.id)] else [])
    ensures Register(q, Function(cb), priority).1 <==> q.isReady && cb.throws
    ensures Register(q, Function(cb), priority).0.isReady == q.isReady
  {
  }

  /** On load, every waiting callback starts once, in the list's priority
      order. */
  lemma LoadedRunsAll(q: Queue)
    ensures Loaded(q).isReady && Loaded(q).callbacks == q.callbacks
    ensures Started(Loaded(q).log) == Started(q.log) + Ids(q.callbacks)
  {
    StartedAppend(q.log, RunAll(q.callbacks));
    EveryCallbackStarts(q.callbacks);
  }

  // ---------------------------------------------------------------------
  // The initializer object
  // ---------------------------------------------------------------------

  class DOMInitializer {
    var callbacks: seq<Entry>
    var isReady: bool
    var log: seq<Event>

    function State(): Queue
      reads this
    {
      Queue(callbacks, isReady, log)
    }

    /** The list is always in priority order. */
    ghost predicate Valid()
      reads this
    {
      SortedByPriority(callbacks)
    }

    /** `ready` is whether `document.readyState` had left `'loading'`;
        when it had not, the `DOMContentLoaded` listener is `Loaded`. */
    constructor(ready: bool)
      ensures State() == Initial(ready) && Valid()
    {
      callbacks := [];
      isReady := ready;
      log := [];
      new;
      if isReady {
        ExecuteCallbacks();
      }
    }

    /** The `DOMContentLoaded` listener, installed only while the document
        was still loading. */
    method ContentLoaded()
      requires !isReady
      modifies this
      ensures State() == Loaded(old(State()))
    {
      isReady := true;
      ExecuteCallbacks();
    }

    method OnReady(arg: Arg, priority: Option<int>) returns (thrown: bool)
      requires Valid()
      modifies this
      ensures (State(), thrown) == Register(old(State()), arg, priority)
      ensures Valid()
    {
      if arg.NotFunction? {
        log := log + [Rejected];
        return false;
      }
      var e := Entry(arg.cb, PriorityOf(priority));
      RegisterOrders(State(), arg.cb, priority, e.priority);
      callbacks := SortByPriority(callbacks + [e]);
      thrown := false;
      if isReady {
        log := log + [Ran(arg.cb.id)];
        thrown := arg.cb.throws;
      }
    }

    /** Calls every callback in list order; an exception is caught and
        reported and the loop goes on. */
    method ExecuteCallbacks()
      modifies this
      ensures State() == old(State()).(log := old(log) + RunAll(callbacks))
    {
      var i := 0;
      while i < |callbacks|
        invariant 0 <= i <= |callbacks|
        invariant callbacks == old(callbacks) && isReady == old(isReady)
        invariant log == old(log) + RunAll(callbacks[..i])
      {
        assert callbacks[..i + 1][..i] == callbacks[..i];
        log := log + RunGuarded(callbacks[i].callback);
        i := i + 1;
      }
      assert callbacks[..i] == callbacks;
    }
  }
}

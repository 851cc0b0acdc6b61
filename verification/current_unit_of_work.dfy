/**
 * CurrentUnitOfWork: the stack of active units of work of one thread. The
 * thread-local storage behind it is modelled as one explicit stack value that the
 * operations take and return.
 */
module CurrentUnitOfWork {
  import opened Results
  import opened MessageMetaData

  /**
   * A unit of work as seen from the stack: `id` stands for the Java object's
   * identity (the stack compares references), and `correlationData` is what
   * `getCorrelationData()` answers.
   */
  datatype UnitOfWork<V> = UnitOfWork(id: nat, correlationData: MetaData<V>)

  /** The active units of work, outermost first; the last one is the current one. */
  datatype Stack<V> = Stack(frames: seq<UnitOfWork<V>>)

  /** The two ways a stack query or pop can fail. */
  datatype StackError =
    | NoUnitOfWorkActive       // `get` or `clear` on an empty stack
    | NotTheActiveUnitOfWork   // `clear` of a unit of work that is not on top

  /** The stack of a thread that has never started a unit of work. */
  function EmptyStack<V>(): Stack<V>
  {
    Stack([])
  }

  /** `isStarted`: some unit of work is active. */
  function IsStarted<V>(s: Stack<V>): (b: bool)
    ensures b <==> exists u :: u in s.frames
  {
    if |s.frames| == 0 then false
    else assert s.frames[0] in s.frames; true
  }

  /** `get`: the current (innermost) unit of work, or an error if none is active. */
  function Get<V>(s: Stack<V>): (r: Result<UnitOfWork<V>, StackError>)
    ensures r.Ok? <==> IsStarted(s)
    ensures r.Ok? ==> s.frames == s.frames[..|s.frames| - 1] + [r.value]
    ensures r.Err? ==> r.error == NoUnitOfWorkActive
  {
    if |s.frames| == 0 then Err(NoUnitOfWorkActive) else Ok(s.frames[|s.frames| - 1])
  }

  /** `set`: makes `u` the current unit of work, on top of those already active. */
  function Set<V>(s: Stack<V>, u: UnitOfWork<V>): (r: Stack<V>)
    ensures |r.frames| == |s.frames| + 1
    ensures r.frames[..|s.frames|] == s.frames
    ensures r.frames[|s.frames|] == u
  {
    Stack(s.frames + [u])
  }

  /**
   * `clear`: removes `u` from the top of the stack. It fails, leaving the stack as
   * it was, when no unit of work is active or when `u` is not the current one.
   */
  function Clear<V>(s: Stack<V>, u: UnitOfWork<V>): (r: Result<Stack<V>, StackError>)
    ensures r.Ok? <==> Get(s).Ok? && Get(s).value.id == u.id
    ensures r.Ok? ==> |r.value.frames| == |s.frames| - 1 && r.value.frames == s.frames[..|s.frames| - 1]
    ensures !IsStarted(s) ==> r == Err(NoUnitOfWorkActive)
    ensures IsStarted(s) && Get(s).value.id != u.id ==> r == Err(NotTheActiveUnitOfWork)
  {
    if |s.frames| == 0 then Err(NoUnitOfWorkActive)
    else if s.frames[|s.frames| - 1].id != u.id then Err(NotTheActiveUnitOfWork)
    else Ok(Stack(s.frames[..|s.frames| - 1]))
  }

  /** `correlationData()`: the current unit of work's correlation data, or empty when none is active. */
  function CorrelationData<V>(s: Stack<V>): (md: MetaData<V>)
    ensures IsStarted(s) ==> md == Get(s).value.correlationData
    ensures !IsStarted(s) ==> md.entries == map[]
  {
    if |s.frames| == 0 then Empty() else s.frames[|s.frames| - 1].correlationData
  }

  /** After `set(u)`, `isStarted()` is true and `get()` returns `u`. */
  lemma SetThenGet<V>(s: Stack<V>, u: UnitOfWork<V>)
    ensures IsStarted(Set(s, u))
    ensures Get(Set(s, u)) == Ok(u)
  {
  }

  /** `clear(u)` right after `set(u)` restores the stack exactly. */
  lemma ClearUndoesSet<V>(s: Stack<V>, u: UnitOfWork<V>)
    ensures Clear(Set(s, u), u) == Ok(s)
  {
    assert Set(s, u).frames[..|s.frames|] == s.frames;
  }

  /**
   * Nesting: with `inner` set on top of `outer`, clearing `outer` first fails, and
   * clearing `inner` makes `outer` the current unit of work again.
   */
  lemma NestedClearRestoresOuter<V>(s: Stack<V>, outer: UnitOfWork<V>, inner: UnitOfWork<V>)
    requires outer.id != inner.id
    ensures Clear(Set(Set(s, outer), inner), outer) == Err(NotTheActiveUnitOfWork)
    ensures Clear(Set(Set(s, outer), inner), inner).Ok?
    ensures Get(Clear(Set(Set(s, outer), inner), inner).value) == Ok(outer)
  {
    ClearUndoesSet(Set(s, outer), inner);
  }

  /**
   * The teardown loop `while (isStarted()) clear(get());`: every pass pops exactly
   * one unit of work, so it runs once per active unit of work and always ends with
   * the stack empty.
   */
  method TearDown<V>(s: Stack<V>) returns (t: Stack<V>, passes: nat)
    ensures !IsStarted(t) && t == EmptyStack()
    ensures passes == |s.frames|
  {
    t := s;
    passes := 0;
    while IsStarted(t)
      invariant passes <= |s.frames|
      invariant t.frames == s.frames[..|s.frames| - passes]
      decreases |t.frames|
    {
      var current := Get(t).value;
      var cleared := Clear(t, current);
      t := cleared.value;
      passes := passes + 1;
    }
  }
}

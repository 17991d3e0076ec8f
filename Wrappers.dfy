/** Option and Result types shared by every module of the model.
  * A Python exception raised by an operation becomes an `Err` carrying the
  * exception class name; `:-` passes it on, as an uncaught exception
  * propagates. */
module Wrappers {
  datatype Option<T> = None | Some(value: T)

  datatype Result<T> = Ok(value: T) | Err(error: string)
  {
    predicate IsFailure()
    {
      Err?
    }

    function PropagateFailure<U>(): Result<U>
      requires Err?
    {
      Err(error)
    }

    function Extract(): T
      requires Ok?
    {
      value
    }
  }

  /** Every value of a list of results, or the first error among them, as a
    * loop that appends and stops at the first exception builds it. */
  function Collect<T>(rs: seq<Result<T>>): (r: Result<seq<T>>)
    ensures r.Ok? ==> |r.value| == |rs| && forall k :: 0 <= k < |rs| ==> rs[k] == Ok(r.value[k])
    ensures r.Err? ==> exists k :: 0 <= k < |rs| && rs[k] == Err(r.error)
  {
    if rs == [] then Ok([])
    else
      var init := rs[..|rs| - 1];
      match Collect(init)
      case Err(e) =>
        assert exists k :: 0 <= k < |init| && init[k] == Err(e);
        Err(e)
      case Ok(vs) =>
        match rs[|rs| - 1]
        case Err(e) => Err(e)
        case Ok(x) =>
          assert forall k :: 0 <= k < |init| ==> rs[k] == init[k];
          Ok(vs + [x])
  }

  /** The first error stops the collection. */
  lemma CollectStops<T>(rs: seq<Result<T>>, i: nat)
    requires i < |rs| && Collect(rs[..i]).Ok? && rs[i].Err?
    ensures Collect(rs) == Err(rs[i].error)
  {
    assert rs[..i + 1][..i] == rs[..i];
    CollectPersists(rs, i + 1);
  }

  /** Collecting one more value appends it. */
  lemma CollectSnoc<T>(rs: seq<Result<T>>, i: nat, x: T)
    requires i < |rs| && Collect(rs[..i]).Ok? && rs[i] == Ok(x)
    ensures Collect(rs[..i + 1]) == Ok(Collect(rs[..i]).value + [x])
  {
    assert rs[..i + 1][..i] == rs[..i];
  }

  /** A list without errors collects to its values. */
  lemma {:induction false} CollectOk<T>(rs: seq<Result<T>>)
    requires forall k :: 0 <= k < |rs| ==> rs[k].Ok?
    ensures Collect(rs).Ok?
  {
    if rs != [] {
      CollectOk(rs[..|rs| - 1]);
    }
  }

  /** Once a prefix holds an error, the whole list gives that error. */
  lemma {:induction false} CollectPersists<T>(rs: seq<Result<T>>, k: nat)
    requires k <= |rs| && Collect(rs[..k]).Err?
    ensures Collect(rs) == Collect(rs[..k])
    decreases |rs| - k
  {
    if k < |rs| {
      assert rs[..k + 1][..k] == rs[..k];
      CollectPersists(rs, k + 1);
    } else {
      assert rs[..k] == rs;
    }
  }
}

/** Error values and the `foreach`-with-exceptions combinator shared by the
    validators and the renderers. */
module Results {
  import opened Sequences

  /** What can go wrong in the geometry layer.
      - InvalidValue: an InvalidValueException with its message and code.
      - EngineError: an error raised by the PHP engine itself (a TypeError
        such as `implode(',', null)`, or an object that cannot be converted
        to a string); `operation` names what failed.
      - NotIterable: a point collection that is neither an array nor a
        geometry object (see README, "Left out").
      - UndefinedOffset: an index that names no stored element. */
  datatype GeoError =
    | InvalidValue(message: string, code: int)
    | EngineError(operation: string)
    | NotIterable(typeName: string)
    | UndefinedOffset(index: int)

  datatype Option<+T> = None | Some(value: T)

  datatype Result<+T> = Ok(value: T) | Err(error: GeoError) {
    predicate IsFailure() { Err? }

    function PropagateFailure<U>(): Result<U>
      requires Err?
    {
      Err(error)
    }

    function Extract(): T
      requires Ok?
    {
      value
    }
  }

  /** A PHP `foreach ($xs as &$x) { $x = f($x); }` whose body may throw:
      the elements are rewritten in order and the first exception ends it. */
  function Collect<A, B>(f: A -> Result<B>, xs: seq<A>): (r: Result<seq<B>>)
    ensures r.Ok? <==> forall i :: 0 <= i < |xs| ==> f(xs[i]).Ok?
    ensures r.Ok? ==> |r.value| == |xs|
    ensures r.Ok? ==> forall i :: 0 <= i < |xs| ==> f(xs[i]) == Ok(r.value[i])
    decreases |xs|
  {
    if xs == [] then Ok([])
    else
      match f(xs[0])
      case Err(e) => Err(e)
      case Ok(y) =>
        match Collect(f, xs[1..])
        case Err(e) => Err(e)
        case Ok(ys) =>
          assert forall i :: 1 <= i < |xs| ==> xs[i] == xs[1..][i - 1];
          Ok([y] + ys)
  }

  /** The error Collect reports is the one of the first element that fails. */
  lemma {:induction false} CollectFirstError<A, B>(f: A -> Result<B>, xs: seq<A>)
    requires Collect(f, xs).Err?
    ensures exists k :: 0 <= k < |xs| && f(xs[k]).Err? && Collect(f, xs).error == f(xs[k]).error
                        && forall j :: 0 <= j < k ==> f(xs[j]).Ok?
    decreases |xs|
  {
    if f(xs[0]).Err? {
      assert f(xs[0]).Err? && Collect(f, xs).error == f(xs[0]).error;
    } else {
      CollectFirstError(f, xs[1..]);
      var k :| 0 <= k < |xs[1..]| && f(xs[1..][k]).Err? && Collect(f, xs[1..]).error == f(xs[1..][k]).error
                && forall j :: 0 <= j < k ==> f(xs[1..][j]).Ok?;
      assert forall j :: 1 <= j < k + 1 ==> xs[j] == xs[1..][j - 1];
      assert f(xs[k + 1]).Err? && Collect(f, xs).error == f(xs[k + 1]).error;
    }
  }

  /** Collect over a concatenation: the first part, then the second. */
  lemma {:induction false} CollectAppend<A, B>(f: A -> Result<B>, a: seq<A>, b: seq<A>)
    ensures Collect(f, a + b) ==
      match Collect(f, a)
      case Err(e) => Err(e)
      case Ok(u) =>
        match Collect(f, b)
        case Err(e) => Err(e)
        case Ok(v) => Ok(u + v)
    decreases |a|
  {
    if a == [] {
      assert a + b == b;
      match Collect(f, b)
      case Err(e) =>
      case Ok(v) => assert [] + v == v;
    } else {
      assert (a + b)[0] == a[0];
      assert (a + b)[1..] == a[1..] + b;
      CollectAppend(f, a[1..], b);
      match f(a[0])
      case Err(e) =>
      case Ok(y) =>
        match Collect(f, a[1..])
        case Err(e) =>
        case Ok(u) =>
          match Collect(f, b)
          case Err(e) =>
          case Ok(v) =>
            assert [y] + (u + v) == ([y] + u) + v;
    }
  }

  /** One more loop iteration that succeeds extends the accumulated result. */
  lemma CollectSnocOk<A, B>(f: A -> Result<B>, xs: seq<A>, x: A)
    requires Collect(f, xs).Ok? && f(x).Ok?
    ensures Collect(f, xs + [x]) == Ok(Collect(f, xs).value + [f(x).value])
  {
    CollectAppend(f, xs, [x]);
    assert Collect(f, [x]) == Ok([f(x).value]) by {
      assert [x][0] == x && [x][1..] == [];
      assert [f(x).value] + [] == [f(x).value];
    }
  }

  /** A loop iteration that throws ends the whole loop with its error. */
  lemma CollectStopsAt<A, B>(f: A -> Result<B>, xs: seq<A>, i: nat)
    requires i < |xs| && Collect(f, xs[..i]).Ok? && f(xs[i]).Err?
    ensures Collect(f, xs) == Err(f(xs[i]).error)
  {
    CollectAppend(f, xs[..i], xs[i..]);
    assert xs[..i] + xs[i..] == xs;
    assert xs[i..][0] == xs[i];
  }

  /** One iteration of the `foreach`, as the loops that implement Collect
      see it: a failing element ends the loop with its error, a succeeding
      one extends the result. */
  lemma CollectStep<A, B>(f: A -> Result<B>, xs: seq<A>, i: nat, done: seq<B>)
    requires i < |xs| && Collect(f, xs[..i]) == Ok(done)
    ensures f(xs[i]).Err? ==> Collect(f, xs) == Err(f(xs[i]).error)
    ensures f(xs[i]).Ok? ==> Collect(f, xs[..i + 1]) == Ok(done + [f(xs[i]).value])
  {
    if f(xs[i]).Err? {
      CollectStopsAt(f, xs, i);
    } else {
      TakeSnoc(xs, i);
      CollectSnocOk(f, xs[..i], xs[i]);
    }
  }

  /** Collect gives exactly the results of the elements when each of them
      succeeds. */
  lemma {:induction false} CollectAllOk<A, B>(f: A -> Result<B>, xs: seq<A>, ys: seq<B>)
    requires |xs| == |ys|
    requires forall i :: 0 <= i < |xs| ==> f(xs[i]) == Ok(ys[i])
    ensures Collect(f, xs) == Ok(ys)
    decreases |xs|
  {
    if xs != [] {
      assert f(xs[0]) == Ok(ys[0]);
      assert forall i :: 0 <= i < |xs[1..]| ==> f(xs[1..][i]) == Ok(ys[1..][i]) by {
        forall i | 0 <= i < |xs[1..]| ensures f(xs[1..][i]) == Ok(ys[1..][i]) {
          assert xs[1..][i] == xs[i + 1] && ys[1..][i] == ys[i + 1];
        }
      }
      CollectAllOk(f, xs[1..], ys[1..]);
      assert [ys[0]] + ys[1..] == ys;
    }
  }
}

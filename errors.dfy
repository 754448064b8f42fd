/** Failure values shared by every layer of the TPM model.

    Each exception the Python code raises (TPMException, ValueError, KeyError,
    IndexError) becomes one `Error` constructor carrying the context that the
    source puts in its message. */
module Errors {

  datatype Option<+T> = None | Some(value: T) {
    predicate IsFailure() { None? }
    function PropagateFailure<U>(): Option<U>
      requires None?
    {
      None
    }
    function Extract(): T
      requires Some?
    {
      value
    }
  }

  datatype Error =
    // Text grammar layer (LinesToTPMRaw)
    | ExpectedTypeIdentifier(line: string)
    | ExpectedOpeningBrace(line: string, blockType: string, identifier: Option<string>)
    | ExpectedProperty(line: string)
    | UnexpectedEndOfFile
    // Primitive codecs
    | NotAVector(text: string)
    | NotAFloat(text: string)
    // Semantic layer (TPMRawToTPM)
    | MultipleFileInfo
    | MissingKey(key: string)
    | BadSkinVertex(value: string)
    | BadFace(value: string)
    | UnknownMeshProperty(key: string)
    | UnexpectedBlockType(blockType: string)
    // Entity constructors
    | NoneField(entity: string)
    | FaceArity(which: string)
    | SkinParity(vertexCount: nat, boneIndexCount: nat)
    | MissingFileInfo
    // Encoder (TPMToTPMRaw)
    | ExportSkinMismatch(name: string, vertexCount: nat, boneIndexCount: nat)
    | ComponentIndexOutOfRange

  /** The outcome of an operation that can raise. */
  datatype Result<+T> = Ok(value: T) | Err(error: Error) {
    predicate IsFailure() { Err? }
    function PropagateFailure<U>(): Result<U>
      requires Err?
    {
      Err(error)
    }
    function Extract(): T
      requires Ok?
    {
      value
    }
  }

  /** `Some(x)` becomes `Ok(x)`; `None` fails with `e`. */
  function Need<T>(o: Option<T>, e: Error): (r: Result<T>)
    ensures r.Ok? <==> o.Some?
    ensures r.Ok? ==> r.value == o.value
    ensures r.Err? ==> r.error == e
  {
    match o
    case Some(x) => Ok(x)
    case None => Err(e)
  }

  /** A loop that threads a state through `xs`, stopping at the first failing
      step: the shape of every accumulate-and-raise loop of the source.
      Defined on the last element so that it follows a loop index. */
  function Fold<S, X>(step: (S, X) -> Result<S>, init: S, xs: seq<X>): Result<S>
    decreases |xs|
  {
    if xs == [] then Ok(init)
    else
      var s :- Fold(step, init, xs[..|xs| - 1]);
      step(s, xs[|xs| - 1])
  }

  /** One more loop iteration. */
  lemma FoldSnoc<S, X>(step: (S, X) -> Result<S>, init: S, xs: seq<X>, x: X)
    ensures Fold(step, init, xs + [x]) ==
            (match Fold(step, init, xs)
             case Ok(s) => step(s, x)
             case Err(e) => Err(e))
  {
    assert (xs + [x])[..|xs + [x]| - 1] == xs;
  }

  /** One more loop iteration, on a prefix of the loop's input. */
  lemma FoldPrefixStep<S, X>(step: (S, X) -> Result<S>, init: S, xs: seq<X>, i: nat)
    requires i < |xs|
    ensures Fold(step, init, xs[..i + 1]) ==
            (match Fold(step, init, xs[..i])
             case Ok(s) => step(s, xs[i])
             case Err(e) => Err(e))
  {
    assert xs[..i + 1] == xs[..i] + [xs[i]];
    FoldSnoc(step, init, xs[..i], xs[i]);
  }

  /** The loop over the whole input. */
  lemma FoldWhole<S, X>(step: (S, X) -> Result<S>, init: S, xs: seq<X>)
    ensures Fold(step, init, xs[..|xs|]) == Fold(step, init, xs)
  {
    assert xs[..|xs|] == xs;
  }

  /** Once a prefix has failed, the whole loop fails with the same error. */
  lemma {:induction false} FoldStopsAtError<S, X>(step: (S, X) -> Result<S>, init: S, xs: seq<X>, n: nat)
    requires n <= |xs|
    requires Fold(step, init, xs[..n]).Err?
    ensures Fold(step, init, xs) == Fold(step, init, xs[..n])
    decreases |xs| - n
  {
    if n < |xs| {
      assert xs[..n + 1][..n] == xs[..n];
      assert Fold(step, init, xs[..n + 1]) == Fold(step, init, xs[..n]);
      FoldStopsAtError(step, init, xs, n + 1);
    } else {
      assert xs[..n] == xs;
    }
  }

  /** Running the loop over `xs + ys` is running it over `xs`, then over `ys`
      from the state reached. */
  lemma {:induction false} FoldAppend<S, X>(step: (S, X) -> Result<S>, init: S, xs: seq<X>, ys: seq<X>)
    ensures Fold(step, init, xs + ys) ==
            (match Fold(step, init, xs)
             case Ok(s) => Fold(step, s, ys)
             case Err(e) => Err(e))
    decreases |ys|
  {
    if ys == [] {
      assert xs + ys == xs;
    } else {
      var ys' := ys[..|ys| - 1];
      var y := ys[|ys| - 1];
      assert ys == ys' + [y];
      assert xs + ys == (xs + ys') + [y];
      FoldSnoc(step, init, xs + ys', y);
      FoldAppend(step, init, xs, ys');
      match Fold(step, init, xs)
      case Ok(s) => FoldSnoc(step, s, ys', y);
      case Err(e) =>
    }
  }

  /** The last step of a loop that completed. */
  lemma FoldLast<S, X>(step: (S, X) -> Result<S>, init: S, xs: seq<X>)
    requires xs != [] && Fold(step, init, xs).Ok?
    ensures Fold(step, init, xs[..|xs| - 1]).Ok?
    ensures Fold(step, init, xs) == step(Fold(step, init, xs[..|xs| - 1]).value, xs[|xs| - 1])
  {
  }

  /** A loop whose every step succeeds. */
  lemma {:induction false} FoldOkPrefix<S, X>(step: (S, X) -> Result<S>, init: S, xs: seq<X>, n: nat)
    requires n <= |xs|
    requires Fold(step, init, xs).Ok?
    ensures Fold(step, init, xs[..n]).Ok?
  {
    if Fold(step, init, xs[..n]).Err? {
      FoldStopsAtError(step, init, xs, n);
    }
  }

  /** Two loops run back to back. */
  lemma FoldThen<S, X>(step: (S, X) -> Result<S>, init: S, xs: seq<X>, ys: seq<X>, mid: S, last: S)
    requires Fold(step, init, xs) == Ok(mid)
    requires Fold(step, mid, ys) == Ok(last)
    ensures Fold(step, init, xs + ys) == Ok(last)
  {
    FoldAppend(step, init, xs, ys);
  }

  /** A loop whose step for the `k`-th element adds `ys[k]` to the state
      through `put`. */
  lemma {:induction false} FoldPut<S, X, Y>(step: (S, X) -> Result<S>, put: (S, seq<Y>) -> S, acc: S, xs: seq<X>, ys: seq<Y>)
    requires |xs| == |ys|
    requires forall k :: 0 <= k < |xs| ==> step(put(acc, ys[..k]), xs[k]) == Ok(put(acc, ys[..k + 1]))
    ensures Fold(step, put(acc, []), xs) == Ok(put(acc, ys))
    decreases |xs|
  {
    if xs != [] {
      var n := |xs| - 1;
      var xs', ys' := xs[..n], ys[..n];
      forall k | 0 <= k < |xs'| ensures step(put(acc, ys'[..k]), xs'[k]) == Ok(put(acc, ys'[..k + 1])) {
        assert ys'[..k] == ys[..k] && ys'[..k + 1] == ys[..k + 1];
      }
      FoldPut(step, put, acc, xs', ys');
      assert ys[..n + 1] == ys;
    }
  }

  /** Two inputs whose elements make every state step alike are folded
      alike. */
  /** `FoldPut` for a step that does the same for every element and value
      related by `ok`. */
  lemma FoldRelated<S, X, Y>(step: (S, X) -> Result<S>, put: (S, seq<Y>) -> S, acc: S,
                             xs: seq<X>, ys: seq<Y>, ok: (X, Y) -> bool)
    requires |xs| == |ys|
    requires forall k :: 0 <= k < |xs| ==> ok(xs[k], ys[k])
    requires forall zs, x, y | ok(x, y) :: step(put(acc, zs), x) == Ok(put(acc, zs + [y]))
    ensures Fold(step, put(acc, []), xs) == Ok(put(acc, ys))
  {
    forall k | 0 <= k < |xs| ensures step(put(acc, ys[..k]), xs[k]) == Ok(put(acc, ys[..k + 1])) {
      assert ys[..k + 1] == ys[..k] + [ys[k]];
    }
    FoldPut(step, put, acc, xs, ys);
  }

  lemma MapSnoc<X, Y>(f: X -> Y, xs: seq<X>, x: X)
    ensures Map(f, xs + [x]) == Map(f, xs) + [f(x)]
  {
    assert (xs + [x])[..|xs|] == xs;
  }

  /** Two loops whose steps agree on every element compute the same. */
  lemma {:induction false} FoldPointwise<S, X>(step: (S, X) -> Result<S>, step': (S, X) -> Result<S>, init: S, xs: seq<X>)
    requires forall k, s :: 0 <= k < |xs| ==> step(s, xs[k]) == step'(s, xs[k])
    ensures Fold(step, init, xs) == Fold(step', init, xs)
    decreases |xs|
  {
    if xs != [] {
      var n := |xs| - 1;
      forall k, s | 0 <= k < n ensures step(s, xs[..n][k]) == step'(s, xs[..n][k]) {
        assert xs[..n][k] == xs[k];
      }
      FoldPointwise(step, step', init, xs[..n]);
    }
  }

  /** A property of the state that every step keeps holds of the state a
      completed loop reaches. */
  lemma {:induction false} FoldInvariant<S, X>(step: (S, X) -> Result<S>, init: S, xs: seq<X>, inv: S -> bool)
    requires inv(init)
    requires forall k, s :: 0 <= k < |xs| && inv(s) && step(s, xs[k]).Ok? ==> inv(step(s, xs[k]).value)
    requires Fold(step, init, xs).Ok?
    ensures inv(Fold(step, init, xs).value)
    decreases |xs|
  {
    if xs != [] {
      var n := |xs| - 1;
      forall k, s | 0 <= k < n && inv(s) && step(s, xs[..n][k]).Ok? ensures inv(step(s, xs[..n][k]).value) {
        assert xs[..n][k] == xs[k];
      }
      FoldInvariant(step, init, xs[..n], inv);
    }
  }

  /** How many elements a loop visits before it returns or raises: all of
      them, or up to and including the first whose step fails. */
  function Reached<S, X>(step: (S, X) -> Result<S>, init: S, xs: seq<X>): (n: nat)
    ensures n <= |xs|
    decreases |xs|
  {
    if xs == [] then 0
    else if Fold(step, init, xs[..|xs| - 1]).Err? then Reached(step, init, xs[..|xs| - 1])
    else |xs|
  }

  lemma {:induction false} ReachedAfterError<S, X>(step: (S, X) -> Result<S>, init: S, xs: seq<X>, n: nat)
    requires n <= |xs|
    requires Fold(step, init, xs[..n]).Err?
    ensures Reached(step, init, xs) == Reached(step, init, xs[..n])
    decreases |xs| - n
  {
    if n < |xs| {
      var front := xs[..|xs| - 1];
      assert front[..n] == xs[..n];
      FoldStopsAtError(step, init, front, n);
      ReachedAfterError(step, init, front, n);
    } else {
      assert xs[..n] == xs;
    }
  }

  /** The loop stops at element `i`, the first to fail. */
  lemma ReachedAt<S, X>(step: (S, X) -> Result<S>, init: S, xs: seq<X>, i: nat)
    requires i < |xs|
    requires Fold(step, init, xs[..i]).Ok?
    requires Fold(step, init, xs[..i + 1]).Err?
    ensures Reached(step, init, xs) == i + 1
  {
    ReachedAfterError(step, init, xs, i + 1);
    assert xs[..i + 1][..i] == xs[..i];
  }

  /** A loop that never fails visits every element. */
  lemma ReachedAll<S, X>(step: (S, X) -> Result<S>, init: S, xs: seq<X>)
    requires Fold(step, init, xs).Ok?
    ensures Reached(step, init, xs) == |xs|
  {
    if xs != [] {
      FoldOkPrefix(step, init, xs, |xs| - 1);
    }
  }

  /** `[f(x) for x in xs]` where `f` may raise: every result, or the error
      of the first element that fails. */
  function MapAll<X, Y>(f: X -> Result<Y>, xs: seq<X>): (r: Result<seq<Y>>)
    ensures r.Ok? <==> forall i :: 0 <= i < |xs| ==> f(xs[i]).Ok?
    ensures r.Ok? ==> |r.value| == |xs| && forall i :: 0 <= i < |xs| ==> f(xs[i]) == Ok(r.value[i])
    decreases |xs|
  {
    if xs == [] then Ok([])
    else
      var init :- MapAll(f, xs[..|xs| - 1]);
      var y :- f(xs[|xs| - 1]);
      Ok(init + [y])
  }

  /** The error is that of the first failing element. */
  lemma {:induction false} MapAllFirstError<X, Y>(f: X -> Result<Y>, xs: seq<X>, i: nat)
    requires i < |xs| && f(xs[i]).Err?
    requires forall j :: 0 <= j < i ==> f(xs[j]).Ok?
    ensures MapAll(f, xs) == Err(f(xs[i]).error)
    decreases |xs|
  {
    var init := xs[..|xs| - 1];
    if i < |xs| - 1 {
      assert init[i] == xs[i];
      forall j | 0 <= j < i ensures f(init[j]).Ok? {
        assert init[j] == xs[j];
      }
      MapAllFirstError(f, init, i);
    } else {
      forall j | 0 <= j < |init| ensures f(init[j]).Ok? {
        assert init[j] == xs[j];
      }
    }
  }

  /** One more element of a loop over `xs`. */
  lemma MapAllPrefixStep<X, Y>(f: X -> Result<Y>, xs: seq<X>, i: nat)
    requires i < |xs| && MapAll(f, xs[..i]).Ok?
    ensures MapAll(f, xs[..i + 1]) ==
            (match f(xs[i])
             case Ok(y) => Ok(MapAll(f, xs[..i]).value + [y])
             case Err(e) => Err(e))
  {
    assert xs[..i + 1][..i] == xs[..i];
  }

  /** Two functions that agree on every element map alike. */
  lemma {:induction false} MapAllPointwise<X, Y>(f: X -> Result<Y>, g: X -> Result<Y>, xs: seq<X>)
    requires forall i :: 0 <= i < |xs| ==> f(xs[i]) == g(xs[i])
    ensures MapAll(f, xs) == MapAll(g, xs)
    decreases |xs|
  {
    if xs != [] {
      var n := |xs| - 1;
      forall i | 0 <= i < n ensures f(xs[..n][i]) == g(xs[..n][i]) {
        assert xs[..n][i] == xs[i];
      }
      MapAllPointwise(f, g, xs[..n]);
    }
  }

  /** Concatenation regrouped, for proofs that would otherwise reach it by
      extensionality. */
  lemma Assoc<T>(a: seq<T>, b: seq<T>, c: seq<T>)
    ensures a + b + c == a + (b + c)
  {
  }

  /** `[f(x) for x in xs]`. */
  function Map<X, Y>(f: X -> Y, xs: seq<X>): (r: seq<Y>)
    ensures |r| == |xs|
    ensures forall i :: 0 <= i < |xs| ==> r[i] == f(xs[i])
    decreases |xs|
  {
    if xs == [] then [] else Map(f, xs[..|xs| - 1]) + [f(xs[|xs| - 1])]
  }

  lemma MapPrefixStep<X, Y>(f: X -> Y, xs: seq<X>, i: nat)
    requires i < |xs|
    ensures Map(f, xs[..i + 1]) == Map(f, xs[..i]) + [f(xs[i])]
  {
    assert xs[..i + 1][..i] == xs[..i];
  }
}


/** Values shared by every module of the model: an optional value, the
    exceptions the Python code raises, and a result that carries either a
    value or the exception that ended the call. */
module Common {

  datatype Option<+T> = None | Some(value: T) {

    /** `value` when present, `default` otherwise (Python's `dict.get(k, default)`). */
    function GetOr(default: T): T {
      match this
      case Some(v) => v
      case None => default
    }
  }

  /** Python truthiness of an optional string: present and not empty. */
  predicate Truthy(v: Option<string>) {
    v.Some? && v.value != ""
  }

  /** The positions of the elements of `s` that `keep` accepts: ascending, and each such
      position exactly once. A filter that keeps the order of its input is stated by it:
      its `k`-th output comes from `s[Positions(s, keep)[k]]`. */
  function Positions<T>(s: seq<T>, keep: T -> bool): (f: seq<nat>)
    ensures forall k | 0 <= k < |f| :: f[k] < |s| && keep(s[f[k]])
    ensures forall j, k | 0 <= j < k < |f| :: f[j] < f[k]
    ensures forall i | 0 <= i < |s| && keep(s[i]) :: i in f
  {
    if s == [] then []
    else
      var n := |s| - 1;
      var front := Positions(s[..n], keep);
      assert forall i | 0 <= i < n :: s[..n][i] == s[i];
      if keep(s[n]) then front + [n] else front
  }

  /** The step of an induction showing that a filter keeps order: when `front` holds, in
      order, the images under `f` of the elements `keep` accepts in `s` less its last element,
      adding the last element's image when it is accepted gives those of the whole of `s`. */
  lemma InOrderStep<T, U>(s: seq<T>, keep: T -> bool, f: T -> U, front: seq<U>)
    requires s != []
    requires var p := Positions(s[..|s| - 1], keep);
      |front| == |p| && forall k | 0 <= k < |p| :: front[k] == f(s[..|s| - 1][p[k]])
    ensures var p := Positions(s, keep);
      var out := front + (if keep(s[|s| - 1]) then [f(s[|s| - 1])] else []);
      |out| == |p| && forall k | 0 <= k < |p| :: out[k] == f(s[p[k]])
  {
    var n := |s| - 1;
    assert forall i | 0 <= i < n :: s[..n][i] == s[i];
  }

  /** The exception kinds raised by the modelled code, by their Python class name. */
  datatype Error =
    | ValueError(message: string)
    | KeyError(key: string)
    | IndexError
    | TypeError
    | AttributeError
    | FileNotFoundError
    | RuntimeError(message: string)

  /** The outcome of a call that may raise: `Ok(v)` returned `v`, `Err(e)` raised `e`. */
  datatype Result<+T> = Ok(value: T) | Err(error: Error) {

    predicate IsFailure() {
      Err?
    }

    function PropagateFailure<U>(): Result<U>
      requires Err?
    {
      Err(error)
    }

    function Extract(): T
      requires Ok?
    {
      value
    }
  }
}

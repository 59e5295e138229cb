/**
 * Shapes shared by the scripts: an optional value (a dict key that may be
 * missing, a `None` return), an outcome that may be a raised exception, and one
 * line of a JSON Lines file as the scripts see it after `json.loads`.
 */
module Records {

  datatype Option<T> = None | Some(value: T)

  /** The exceptions the modelled code lets escape. */
  datatype Failure =
    | ZeroDivision   // a `/` whose divisor is zero
    | DecodeError    // `json.loads` on a line that is not JSON, outside any `try`
    | KeyError       // `d[key]` on a dict without `key`

  datatype Result<T> = Ok(value: T) | Fail(error: Failure)

  /** A line of a `.jsonl` file: empty or whitespace-only, not valid JSON, or one decoded object. */
  datatype Line<D> = Blank | Malformed | Record(doc: D)

  /** The decoded object of one line, if it holds one. */
  function Found<D>(line: Line<D>): seq<D> {
    match line
    case Record(d) => [d]
    case _ => []
  }

  /** The decoded objects of `lines`, in file order; the other lines are skipped. */
  function Docs<D>(lines: seq<Line<D>>): (ds: seq<D>)
    ensures |ds| <= |lines|
  {
    if lines == [] then [] else Docs(lines[..|lines| - 1]) + Found(lines[|lines| - 1])
  }

  /** Reading one more line adds that line's object, if any, to the end. */
  lemma DocsPrefix<D>(lines: seq<Line<D>>, i: nat)
    requires i < |lines|
    ensures Docs(lines[..i + 1]) == Docs(lines[..i]) + Found(lines[i])
  {
    assert lines[..i + 1][..i] == lines[..i];
  }

  /** The value held by `o`, if any, as a sequence of length at most one. */
  function Present<T>(o: Option<T>): seq<T> {
    match o
    case Some(v) => [v]
    case None => []
  }

  /** The present values of `f` over `xs`, in order: a list comprehension with a filter. */
  function Collect<A, B>(xs: seq<A>, f: A -> Option<B>): (ys: seq<B>)
    ensures |ys| <= |xs|
  {
    if xs == [] then [] else Collect(xs[..|xs| - 1], f) + Present(f(xs[|xs| - 1]))
  }

  /** Collecting over a concatenation collects over each part. */
  lemma {:induction false} CollectAppend<A, B>(a: seq<A>, b: seq<A>, f: A -> Option<B>)
    ensures Collect(a + b, f) == Collect(a, f) + Collect(b, f)
    decreases |b|
  {
    if b == [] {
      assert a + b == a;
    } else {
      CollectAppend(a, b[..|b| - 1], f);
      DropLastAppend(a, b);
    }
  }

  /** Dropping the last element of `a + b` drops the last element of `b`. */
  lemma DropLastAppend<A>(a: seq<A>, b: seq<A>)
    requires b != []
    ensures (a + b)[..|a + b| - 1] == a + b[..|b| - 1]
    ensures (a + b)[|a + b| - 1] == b[|b| - 1]
  {
  }

  /** A property every present value of `f` on `xs` has holds of everything collected. */
  lemma {:induction false} CollectAll<A, B>(xs: seq<A>, f: A -> Option<B>, p: B -> bool)
    requires forall i :: 0 <= i < |xs| && f(xs[i]).Some? ==> p(f(xs[i]).value)
    ensures forall y :: y in Collect(xs, f) ==> p(y)
    decreases |xs|
  {
    if xs != [] {
      CollectAll(xs[..|xs| - 1], f, p);
    }
  }

  /** Nothing is collected exactly when `f` has no value for any element. */
  lemma {:induction false} CollectEmpty<A, B>(xs: seq<A>, f: A -> Option<B>)
    ensures Collect(xs, f) == [] <==> forall i :: 0 <= i < |xs| ==> f(xs[i]).None?
    decreases |xs|
  {
    if xs != [] {
      var p := xs[..|xs| - 1];
      CollectEmpty(p, f);
      assert forall i :: 0 <= i < |p| ==> p[i] == xs[i];
    }
  }

  /** When `g` has a value exactly where `f` has none, every element is collected by
      exactly one of them. */
  lemma {:induction false} CollectPartition<A, B, C>(xs: seq<A>, f: A -> Option<B>, g: A -> Option<C>)
    requires forall x :: f(x).Some? <==> g(x).None?
    ensures |Collect(xs, f)| + |Collect(xs, g)| == |xs|
    decreases |xs|
  {
    if xs != [] {
      CollectPartition(xs[..|xs| - 1], f, g);
      var x := xs[|xs| - 1];
      assert f(x).Some? <==> g(x).None?;
    }
  }
}

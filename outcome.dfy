/** Success or failure of an operation, and the failures the archive manager reports. */
module Outcome {

  /** The exceptions of the source. Every one of them ends the command with exit code 1:
      `ValueError` and `RuntimeError` are caught at the command boundary, and
      `Uncaught` stands for the operating-system and type errors that are not. */
  datatype Error =
    | EmptyIdentifier            // ValueError: an id normalises to nothing
    | PathTraversal              // ValueError: a recorded path is absolute or has a `..` part
    | NotUtf8                    // ValueError (UnicodeDecodeError): a JSON document is not UTF-8
    | CampaignNotFound           // RuntimeError: no archive directory for the campaign
    | SnapshotNotFound           // RuntimeError: no manifest for the explicit snapshot id
    | NoSnapshots                // RuntimeError: the campaign holds no readable manifest
    | JsonParseFailed            // RuntimeError: a JSON document does not decode
    | ManifestEmpty              // RuntimeError: the manifest document is empty
    | ManifestSchemaInvalid      // RuntimeError: the manifest lacks a required key
    | DataDirMissing             // RuntimeError: the snapshot has no payload directory
    | IntegrityViolation         // RuntimeError: a restored file's digest differs from its record
    | Uncaught                   // an exception the command boundary does not catch

  datatype Result<+T> = Ok(value: T) | Err(error: Error) {
    predicate IsFailure() {
      Err?
    }

    function PropagateFailure<U>(): Result<U>
      requires Err?
    {
      Err(error)
    }

    function Extract(): T
      requires Ok?
    {
      value
    }
  }

  datatype Option<+T> = None | Some(value: T)

  /** `[f(x) for x in xs]` where `f` may raise: the first error ends the walk. */
  function MapAll<A, B>(f: A -> Result<B>, xs: seq<A>): (r: Result<seq<B>>)
    ensures r.Ok? ==> |r.value| == |xs|
    ensures r.Err? ==> exists i :: 0 <= i < |xs| && f(xs[i]) == Err(r.error)
    decreases |xs|
  {
    if xs == [] then Ok([])
    else
      var init :- MapAll(f, xs[..|xs| - 1]);
      var last :- f(xs[|xs| - 1]);
      Ok(init + [last])
  }

  /** The walk succeeds exactly when every element succeeds, and then holds their
      results in order. */
  lemma {:induction false} MapAllOk<A, B>(f: A -> Result<B>, xs: seq<A>)
    ensures MapAll(f, xs).Ok? <==> forall i :: 0 <= i < |xs| ==> f(xs[i]).Ok?
    ensures MapAll(f, xs).Ok? ==> forall i :: 0 <= i < |xs| ==> f(xs[i]) == Ok(MapAll(f, xs).value[i])
    decreases |xs|
  {
    if xs != [] {
      var n := |xs| - 1;
      var init := xs[..n];
      MapAllOk(f, init);
      assert forall i :: 0 <= i < n ==> init[i] == xs[i];
      var done := MapAll(f, init);
      if done.Err? {
        var i :| 0 <= i < n && f(init[i]).Err?;
        assert f(xs[i]).Err?;
      } else if f(xs[n]).Ok? {
        var ys := done.value + [f(xs[n]).value];
        assert MapAll(f, xs) == Ok(ys);
        forall i | 0 <= i < |xs|
          ensures f(xs[i]) == Ok(ys[i])
        {
          if i < n {
            assert ys[i] == done.value[i];
          }
        }
      }
    }
  }

  /** The first element that fails decides the error. */
  lemma {:induction false} MapAllFirstError<A, B>(f: A -> Result<B>, xs: seq<A>, i: nat)
    requires i < |xs|
    requires forall j :: 0 <= j < i ==> f(xs[j]).Ok?
    requires f(xs[i]).Err?
    ensures MapAll(f, xs) == Err(f(xs[i]).error)
    decreases |xs|
  {
    var init := xs[..|xs| - 1];
    assert forall j :: 0 <= j < |init| ==> init[j] == xs[j];
    if i < |xs| - 1 {
      MapAllFirstError(f, init, i);
    } else {
      MapAllOk(f, init);
    }
  }

  /** One more element that succeeds extends a successful walk. */
  lemma MapAllSnoc<A, B>(f: A -> Result<B>, xs: seq<A>, k: nat)
    requires k < |xs| && MapAll(f, xs[..k]).Ok? && f(xs[k]).Ok?
    ensures MapAll(f, xs[..k + 1]) == Ok(MapAll(f, xs[..k]).value + [f(xs[k]).value])
  {
    assert xs[..k + 1][..k] == xs[..k];
  }
}

/** The redirect-event batcher of the service layer. The service owns a
    fixed buffer of RedirectsBatchSize events and a write index; a full
    buffer is handed to the store's CreateRedirects, and Shutdown hands over
    whatever is left. The mutex and the goroutine that runs a full batch's
    flush are modelled as one atomic step: a hand-off is recorded in a ghost
    log with the buffer contents at the moment of the hand-off. */
module Service {
  import opened Redirect

  const RedirectsBatchSize: nat := 250

  /** The events of consecutive batches, in order. */
  function Concat(batches: seq<seq<Redirect>>): seq<Redirect> {
    if batches == [] then [] else Concat(batches[..|batches| - 1]) + batches[|batches| - 1]
  }

  predicate AllFull(batches: seq<seq<Redirect>>) {
    forall k :: 0 <= k < |batches| ==> |batches[k]| == RedirectsBatchSize
  }

  lemma ConcatSnoc(batches: seq<seq<Redirect>>, b: seq<Redirect>)
    ensures Concat(batches + [b]) == Concat(batches) + b
  {
    assert (batches + [b])[..|batches|] == batches;
  }

  /** The service with its redirects batcher (the fields of the Go
      redirectsService live directly in it). */
  class Service {
    var redirects: array<Redirect>
    var i: int
    /** Every event recorded since New, in recording order. */
    ghost var recorded: seq<Redirect>
    /** The full buffers handed to CreateRedirects by CreateRedirect. */
    ghost var batches: seq<seq<Redirect>>
    /** The partial buffers handed to CreateRedirects by Shutdown. */
    ghost var drains: seq<seq<Redirect>>

    /** The batcher invariant: a buffer of exactly RedirectsBatchSize slots,
        an index inside it, and no event lost or reordered: the events handed
        off in full batches followed by the pending prefix are exactly the
        events recorded. */
    ghost predicate Valid()
      reads this, redirects
    {
      && redirects.Length == RedirectsBatchSize
      && 0 <= i < RedirectsBatchSize
      && AllFull(batches)
      && Concat(batches) + redirects[..i] == recorded
    }

    /** The events recorded and not yet handed off. */
    ghost function Pending(): seq<Redirect>
      reads this, redirects
      requires Valid()
    {
      redirects[..i]
    }

    /** New: a buffer of RedirectsBatchSize zero events and index 0. */
    constructor New()
      ensures Valid() && fresh(redirects)
      ensures i == 0 && redirects[..] == seq(RedirectsBatchSize, _ => ZeroRedirect)
      ensures recorded == [] && batches == [] && drains == []
    {
      redirects := new Redirect[RedirectsBatchSize](_ => ZeroRedirect);
      i := 0;
      recorded, batches, drains := [], [], [];
    }

    /** CreateRedirect: the event goes to slot i and every other slot keeps
        its event. Below the last slot the index moves on and nothing is
        handed off; at the last slot the whole buffer, this event included, is
        handed to CreateRedirects once and the index returns to 0. */
    method CreateRedirect(r: Redirect)
      requires Valid()
      modifies this, redirects
      ensures Valid() && redirects == old(redirects)
      ensures redirects[..] == old(redirects[..])[old(i) := r]
      ensures recorded == old(recorded) + [r] && drains == old(drains)
      ensures old(i) != RedirectsBatchSize - 1 ==> i == old(i) + 1 && batches == old(batches)
      ensures old(i) == RedirectsBatchSize - 1 ==> i == 0 && batches == old(batches) + [redirects[..]]
    {
      ghost var pending := redirects[..i];
      if i != RedirectsBatchSize - 1 {
        redirects[i] := r;
        i := i + 1;
        assert redirects[..i] == pending + [r];
        recorded := recorded + [r];
        return;
      }
      redirects[i] := r;
      assert redirects[..] == pending + [r];
      ConcatSnoc(batches, redirects[..]);
      batches := batches + [redirects[..]];
      recorded := recorded + [r];
      i := 0;
    }

    /** Shutdown: with pending events, hands exactly the prefix redirects[0..i)
        to CreateRedirects, in slot order; with none, hands over nothing. The
        index and the buffer are left as they are, and afterwards every
        recorded event has been handed off. */
    method Shutdown()
      requires Valid()
      modifies this`drains
      ensures Valid()
      ensures old(i) == 0 ==> drains == old(drains)
      ensures old(i) != 0 ==> drains == old(drains) + [Pending()]
      ensures old(i) != 0 ==> 1 <= |drains[|drains| - 1]| < RedirectsBatchSize
      ensures Concat(batches) + (if i == 0 then [] else drains[|drains| - 1]) == recorded
    {
      if i != 0 {
        drains := drains + [redirects[..i]];
      }
    }
  }

  /** The hand-offs are the recorded events cut into consecutive slices of
      RedirectsBatchSize, in recording order, and the pending events are the
      remainder. */
  lemma {:induction false} BatchesAreSlices(batches: seq<seq<Redirect>>, pending: seq<Redirect>, recorded: seq<Redirect>)
    requires AllFull(batches) && |pending| < RedirectsBatchSize
    requires Concat(batches) + pending == recorded
    ensures |Concat(batches)| == |batches| * RedirectsBatchSize
    ensures |batches| == |recorded| / RedirectsBatchSize
    ensures pending == recorded[|batches| * RedirectsBatchSize..]
    ensures forall k :: 0 <= k < |batches| ==>
      batches[k] == recorded[k * RedirectsBatchSize..(k + 1) * RedirectsBatchSize]
  {
    ConcatLayout(batches);
    assert recorded[..|batches| * RedirectsBatchSize] == Concat(batches);
  }

  lemma {:induction false} ConcatLayout(batches: seq<seq<Redirect>>)
    requires AllFull(batches)
    ensures |Concat(batches)| == |batches| * RedirectsBatchSize
    ensures forall k :: 0 <= k < |batches| ==>
      batches[k] == Concat(batches)[k * RedirectsBatchSize..(k + 1) * RedirectsBatchSize]
  {
    if batches != [] {
      var init := batches[..|batches| - 1];
      ConcatLayout(init);
      var c := Concat(batches);
      assert c == Concat(init) + batches[|batches| - 1];
      forall k | 0 <= k < |batches|
        ensures batches[k] == c[k * RedirectsBatchSize..(k + 1) * RedirectsBatchSize]
      {
        if k < |init| {
          assert c[..|init| * RedirectsBatchSize] == Concat(init);
        }
      }
    }
  }

  /** Starting from New, RedirectsBatchSize events produce exactly one
      hand-off carrying them in recording order and leave nothing pending;
      one more event leaves exactly that event pending. */
  lemma OneFullBatch(batches: seq<seq<Redirect>>, pending: seq<Redirect>, recorded: seq<Redirect>)
    requires AllFull(batches) && |pending| < RedirectsBatchSize
    requires Concat(batches) + pending == recorded
    ensures |recorded| == RedirectsBatchSize ==> batches == [recorded] && pending == []
    ensures |recorded| == RedirectsBatchSize + 1 ==>
      batches == [recorded[..RedirectsBatchSize]] && pending == [recorded[RedirectsBatchSize]]
  {
    BatchesAreSlices(batches, pending, recorded);
    if |recorded| == RedirectsBatchSize {
      assert |batches| == 1 && batches[0] == recorded[..RedirectsBatchSize] == recorded;
      assert batches == [batches[0]];
      assert pending == recorded[RedirectsBatchSize..] == [];
    }
    if |recorded| == RedirectsBatchSize + 1 {
      assert |batches| == 1 && batches[0] == recorded[..RedirectsBatchSize];
      assert batches == [batches[0]];
      assert pending == recorded[RedirectsBatchSize..] == [recorded[RedirectsBatchSize]];
    }
  }
}

/** The generator's side of its output channel: blocking sends, or sends that drop when there is no room. */
module Channel {
  /** What has been sent and dropped, and whether the generator is still running. */
  datatype Flow<R> = Flow(out: seq<R>, dropped: nat, open: bool)

  /** One request offered: sent if there is room, else dropped, else (no dropped callback) cancelled while waiting. */
  function Offer<R>(f: Flow<R>, r: R, lossy: bool, room: bool): Flow<R> {
    if !f.open then f
    else if room then Flow(f.out + [r], f.dropped, true)
    else if lossy then Flow(f.out, f.dropped + 1, true)
    else Flow(f.out, f.dropped, false)
  }

  /** The select statement around one send. */
  method Select<R>(f: Flow<R>, r: R, lossy: bool, room: bool) returns (g: Flow<R>)
    requires f.open
    ensures g == Offer(f, r, lossy, room)
  {
    if lossy {
      if room {
        g := f.(out := f.out + [r]);
      } else {
        g := f.(dropped := f.dropped + 1);
      }
    } else {
      if room {
        g := f.(out := f.out + [r]);
      } else {
        g := f.(open := false);
      }
    }
  }

  /** Whether the channel takes request n, as scripted; it does beyond the script. */
  predicate HasRoom(room: seq<bool>, n: nat) { n < |room| ==> room[n] }

  /** The requests `rs` offered in order after the flow `f`, the first of them being number k. */
  function Offered<R>(f: Flow<R>, rs: seq<R>, k: nat, lossy: bool, room: seq<bool>): Flow<R> {
    if rs == [] then f
    else
      var n := |rs| - 1;
      Offer(Offered(f, rs[..n], k, lossy, room), rs[n], lossy, HasRoom(room, k + n))
  }

  lemma {:induction false} OfferedMore<R>(f: Flow<R>, a: seq<R>, b: seq<R>, k: nat, lossy: bool, room: seq<bool>)
    ensures Offered(f, a + b, k, lossy, room) == Offered(Offered(f, a, k, lossy, room), b, k + |a|, lossy, room)
  {
    if b == [] {
      assert a + b == a;
    } else {
      var c := b[..|b| - 1];
      OfferedMore(f, a, c, k, lossy, room);
      assert (a + b)[..|a + b| - 1] == a + c;
    }
  }

  lemma OfferedOne<R>(f: Flow<R>, a: seq<R>, r: R, k: nat, lossy: bool, room: seq<bool>)
    ensures Offered(f, a + [r], k, lossy, room) == Offer(Offered(f, a, k, lossy, room), r, lossy, HasRoom(room, k + |a|))
  {
    assert (a + [r])[..|a|] == a;
  }

  lemma {:induction false} OfferedClosed<R>(f: Flow<R>, rs: seq<R>, k: nat, lossy: bool, room: seq<bool>)
    requires !f.open
    ensures Offered(f, rs, k, lossy, room) == f
  {
    if rs != [] { OfferedClosed(f, rs[..|rs| - 1], k, lossy, room); }
  }

  /** Once cancelled, later requests change nothing. */
  lemma {:induction false} OfferedCut<R>(f: Flow<R>, rs: seq<R>, all: seq<R>, k: nat, lossy: bool, room: seq<bool>)
    requires |rs| <= |all| && all[..|rs|] == rs && !Offered(f, rs, k, lossy, room).open
    ensures Offered(f, all, k, lossy, room) == Offered(f, rs, k, lossy, room)
  {
    var rest := all[|rs|..];
    OfferedMore(f, rs, rest, k, lossy, room);
    assert rs + rest == all;
    OfferedClosed(Offered(f, rs, k, lossy, room), rest, k + |rs|, lossy, room);
  }

  /** The next group of a stream `all`: offered after the earlier ones, and final if it meets a cancellation. */
  lemma {:induction false} OfferGroup<R>(f: Flow<R>, rs: seq<R>, now: seq<R>, all: seq<R>, k: nat, lossy: bool, room: seq<bool>)
    requires |rs| + |now| <= |all| && all[..|rs| + |now|] == rs + now
    ensures var f1 := Offered(Offered(f, rs, k, lossy, room), now, k + |rs|, lossy, room);
            && f1 == Offered(f, rs + now, k, lossy, room)
            && (!f1.open ==> f1 == Offered(f, all, k, lossy, room))
  {
    OfferedMore(f, rs, now, k, lossy, room);
    if !Offered(f, rs + now, k, lossy, room).open { OfferedCut(f, rs + now, all, k, lossy, room); }
  }

  /** ... and the same for a single request. */
  lemma {:induction false} OfferNext<R>(f: Flow<R>, rs: seq<R>, r: R, all: seq<R>, k: nat, lossy: bool, room: seq<bool>)
    requires |rs| < |all| && all[..|rs| + 1] == rs + [r]
    ensures var f1 := Offer(Offered(f, rs, k, lossy, room), r, lossy, HasRoom(room, k + |rs|));
            && f1 == Offered(f, rs + [r], k, lossy, room)
            && (!f1.open ==> f1 == Offered(f, all, k, lossy, room))
  {
    OfferedOne(f, rs, r, k, lossy, room);
    if !Offered(f, rs + [r], k, lossy, room).open { OfferedCut(f, rs + [r], all, k, lossy, room); }
  }

  /** No request among the first m finds the channel full. */
  ghost predicate RoomUpTo(room: seq<bool>, m: nat) {
    forall n: nat | n < m :: HasRoom(room, n)
  }

  /** Without a dropped callback nothing is lost: what is sent is the stream up to the first request without room. */
  lemma {:induction false} LosslessIsPrefix<R>(rs: seq<R>, room: seq<bool>)
    ensures var f := Offered(Flow([], 0, true), rs, 0, false, room);
            && f.dropped == 0 && |f.out| <= |rs| && f.out == rs[..|f.out|] && RoomUpTo(room, |f.out|)
            && (f.open <==> |f.out| == |rs|) && (!f.open ==> !HasRoom(room, |f.out|))
  {
    if rs != [] {
      var n := |rs| - 1;
      LosslessIsPrefix(rs[..n], room);
      assert forall j: nat | j <= n :: rs[..n][..j] == rs[..j];
      assert rs == rs[..n] + [rs[n]];
    }
  }

  /** The requests with room. */
  function Kept<R>(rs: seq<R>, room: seq<bool>): seq<R> {
    if rs == [] then [] else Kept(rs[..|rs| - 1], room) + (if HasRoom(room, |rs| - 1) then [rs[|rs| - 1]] else [])
  }

  /** With a dropped callback every request is either sent, in order, or counted as dropped. */
  lemma {:induction false} LossyKeeps<R>(rs: seq<R>, room: seq<bool>)
    ensures var f := Offered(Flow([], 0, true), rs, 0, true, room);
            f.open && f.out == Kept(rs, room) && |f.out| + f.dropped == |rs|
  {
    if rs != [] { LossyKeeps(rs[..|rs| - 1], room); }
  }

  // ----- a stream made chunk by chunk, each chunk drawn from the state the one before left

  function Chunks<R>(chunk: (nat, int) -> (seq<R>, nat), s: nat, ticks: seq<int>): (seq<R>, nat) {
    if ticks == [] then ([], s)
    else
      var before := Chunks(chunk, s, ticks[..|ticks| - 1]);
      var now := chunk(before.1, ticks[|ticks| - 1]);
      (before.0 + now.0, now.1)
  }

  lemma {:induction false} ChunksStart<R>(chunk: (nat, int) -> (seq<R>, nat), s: nat, ticks: seq<int>, i: nat)
    requires i <= |ticks|
    ensures var a, b := Chunks(chunk, s, ticks[..i]).0, Chunks(chunk, s, ticks).0; |a| <= |b| && b[..|a|] == a
  {
    if i == |ticks| {
      assert ticks[..i] == ticks;
    } else {
      ChunksStart(chunk, s, ticks[..|ticks| - 1], i);
      assert ticks[..|ticks| - 1][..i] == ticks[..i];
    }
  }

  /** Offering one more chunk of the stream that all the `live` ticks make. */
  lemma {:induction false} OfferChunk<R>(chunk: (nat, int) -> (seq<R>, nat), s: nat, live: seq<int>, i: nat, f: Flow<R>, lossy: bool, room: seq<bool>)
    requires i < |live| && f == Offered(Flow([], 0, true), Chunks(chunk, s, live[..i]).0, 0, lossy, room)
    ensures var before, after := Chunks(chunk, s, live[..i]), Chunks(chunk, s, live[..i + 1]);
            var now := chunk(before.1, live[i]);
            var f1 := Offered(f, now.0, |before.0|, lossy, room);
            && f1 == Offered(Flow([], 0, true), after.0, 0, lossy, room)
            && (!f1.open ==> f1 == Offered(Flow([], 0, true), Chunks(chunk, s, live).0, 0, lossy, room))
            && after == (before.0 + now.0, now.1)
  {
    assert live[..i + 1][..i] == live[..i];
    ChunksStart(chunk, s, live, i + 1);
    var before := Chunks(chunk, s, live[..i]);
    OfferGroup(Flow([], 0, true), before.0, chunk(before.1, live[i]).0, Chunks(chunk, s, live).0, 0, lossy, room);
  }
}

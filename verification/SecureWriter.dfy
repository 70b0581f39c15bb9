/**
 The writer of msgr2 frames in secure mode: heads are sealed as they are queued, message
 tails are sealed at once and sent a page at a time, and revoking a message changes nothing.
 */
module SecureWriter {
  import opened Wire
  import opened Frames
  import opened FrameReading

  lemma NonceAfterOne(nonce: nat, frames: seq<Frame>, f: Frame)
    ensures NonceAfter(true, nonce, frames + [f]) == AfterFrame(true, NonceAfter(true, nonce, frames), f)
  {
    NonceAfterMore(true, nonce, frames, f);
  }

  lemma EncodeFirst(a: Aead, nonce: nat, frames: seq<Frame>)
    requires AllValid(frames) && frames != []
    ensures WithinBounds(frames[0].Describe().lens)
    ensures EncodeAll(true, a, nonce, frames)
         == EncodeFrame(true, a, nonce, frames[0]) + EncodeAll(true, a, AfterFrame(true, nonce, frames[0]), frames[1..])
  {
    hide EncodeFrame, AfterFrame;
    ValidWithinBounds(frames[0]);
  }

  lemma EncodeNone(a: Aead, nonce: nat)
    ensures EncodeAll(true, a, nonce, []) == []
  {
  }

  /** One more frame at the end of a stream. */
  lemma {:induction false} EncodeAllMore(a: Aead, nonce: nat, frames: seq<Frame>, f: Frame)
    requires AllValid(frames) && f.Valid()
    ensures AllValid(frames + [f]) && WithinBounds(f.Describe().lens)
    ensures EncodeAll(true, a, nonce, frames + [f])
         == EncodeAll(true, a, nonce, frames) + EncodeFrame(true, a, NonceAfter(true, nonce, frames), f)
    decreases |frames|
  {
    ValidWithinBounds(f);
    AllValidMore(frames, f);
    hide EncodeFrame, AfterFrame, EncodeAll, NonceAfter, AllValid;
    if frames == [] {
      assert frames + [f] == [f];
      EncodeSingle(a, nonce, f);
    } else {
      NonceFirst(nonce, frames);
      AllValidRest(frames);
      var next := AfterFrame(true, nonce, frames[0]);
      EncodeAllMore(a, next, frames[1..], f);
      EncodeFirst(a, nonce, frames);
      EncodeFirst(a, nonce, frames + [f]);
      FirstAndRest(frames, f);
      Together(EncodeFrame(true, a, nonce, frames[0]), EncodeAll(true, a, next, frames[1..]),
               EncodeFrame(true, a, NonceAfter(true, next, frames[1..]), f));
    }
  }

  lemma AllValidMore(frames: seq<Frame>, f: Frame)
    requires AllValid(frames) && f.Valid()
    ensures AllValid(frames + [f])
  {
  }

  lemma FirstAndRest(frames: seq<Frame>, f: Frame)
    requires frames != []
    ensures (frames + [f])[0] == frames[0] && (frames + [f])[1..] == frames[1..] + [f]
  {
  }

  lemma AllValidRest(frames: seq<Frame>)
    requires AllValid(frames) && frames != []
    ensures AllValid(frames[1..])
  {
  }

  lemma NonceFirst(nonce: nat, frames: seq<Frame>)
    requires frames != []
    ensures NonceAfter(true, nonce, frames) == NonceAfter(true, AfterFrame(true, nonce, frames[0]), frames[1..])
  {
    hide AfterFrame;
  }

  lemma EncodeSingle(a: Aead, nonce: nat, f: Frame)
    requires f.Valid()
    ensures AllValid([f]) && AllValid([]) && WithinBounds(f.Describe().lens) && NonceAfter(true, nonce, []) == nonce
    ensures EncodeAll(true, a, nonce, [f]) == EncodeAll(true, a, nonce, []) + EncodeFrame(true, a, nonce, f)
  {
    hide EncodeFrame, AfterFrame;
    EncodeFirst(a, nonce, [f]);
    EncodeNone(a, nonce);
    EncodeNone(a, AfterFrame(true, nonce, f));
    assert [f][1..] == [];
  }

  lemma Together(a: seq<bv8>, b: seq<bv8>, c: seq<bv8>)
    ensures a + b + c == a + (b + c)
  {
  }

  /** The writing half of a connection; sent lists the frames begun so far. */
  class OutConnection {
    const aead: Aead
    const start: nat
    var nonce: nat
    var iter: seq<bv8>
    var encPages: seq<bv8>
    var encResid: nat
    var wire: seq<bv8>
    var live: bool
    ghost var sent: seq<Frame>

    /** What has been sealed and not been queued yet. */
    ghost function Unqueued(): seq<bv8>
      reads this
      requires encResid <= |encPages|
    {
      encPages[|encPages| - encResid..]
    }

    /** Bytes sent, queued and sealed are the stream of the frames begun; the nonce is the next one. */
    ghost predicate Valid()
      reads this
    {
      && aead.Lawful() && AllValid(sent) && encResid <= |encPages| && nonce == NonceAfter(true, start, sent)
      && wire + iter + Unqueued() == EncodeAll(true, aead, start, sent)
    }

    constructor (a: Aead, n: nat)
      requires a.Lawful()
      ensures Valid() && sent == [] && aead == a && start == n && Idle()
    {
      aead, start, nonce, iter, encPages, encResid, wire, live, sent := a, n, n, [], [], 0, [], false, [];
    }

    /** Nothing is left of the last frame. */
    predicate Idle()
      reads this
    {
      iter == [] && encResid == 0
    }

    /** gcm_crypt */
    method Seal(p: seq<bv8>) returns (c: seq<bv8>)
      modifies this`nonce
      ensures c == aead.seal(old(nonce), p) && nonce == Bump(old(nonce))
    {
      c := aead.seal(nonce, p);
      nonce := Bump(nonce);
    }

    /** prepare_head_secure_small and prepare_head_secure_big */
    method PrepareHead(f: Frame) returns (head: seq<bv8>)
      requires WithinBounds(f.Describe().lens)
      modifies this`nonce
      ensures head == Head(true, aead, old(nonce), f) && nonce == AfterHead(true, old(nonce), f)
    {
      hide EncodePreamble, Padded;
      var ctrl := f.Ctrl();
      if |ctrl| <= PREAMBLE_INLINE_LEN {
        head := Seal(EncodePreamble(f.Describe()) + (ctrl + Zeros(PREAMBLE_INLINE_LEN - |ctrl|)));
        assert head + [] == head;
      } else {
        var first := Seal(EncodePreamble(f.Describe()) + ctrl[..PREAMBLE_INLINE_LEN]);
        var rest := Seal(Padded(ctrl[PREAMBLE_INLINE_LEN..]));
        head := first + rest;
      }
    }

    /** prepare_message_secure, after its head: the whole tail is sealed at once */
    method PrepareTail(f: Frame)
      modifies this`nonce, this`encPages, this`encResid
      ensures encResid == |encPages| && encPages == SecureTail(aead, old(nonce), f)
      ensures nonce == if f.HasTail() then Bump(old(nonce)) else old(nonce)
    {
      hide TailText;
      encPages, encResid := [], 0;
      if f.HasTail() {
        encPages := Seal(TailText(f));
        encResid := |encPages|;
      }
    }

    /** prepare_control, or prepare_message_secure */
    method Send(f: Frame)
      requires Valid() && Idle() && f.Valid()
      modifies this
      ensures Valid() && sent == old(sent) + [f] && nonce == AfterFrame(true, old(nonce), f)
    {
      hide EncodeAll, NonceAfter, Head, SecureTail;
      ValidWithinBounds(f);
      EncodeAllMore(aead, start, sent, f);
      NonceAfterOne(start, sent, f);
      ghost var before, n0 := EncodeAll(true, aead, start, sent), nonce;
      assert before == wire by { assert wire + [] + [] == wire; }
      iter := PrepareHead(f);
      live := f.Message?;
      PrepareTail(f);
      assert Unqueued() == encPages == Tail(true, aead, n0, f);
      assert EncodeFrame(true, aead, n0, f) == iter + encPages;
      hide AfterFrame, EncodeFrame, Tail;
      sent := sent + [f];
      Together(wire, iter, encPages);
    }

    /** The socket takes k bytes. */
    method Take(k: nat)
      requires Valid() && k <= |iter|
      modifies this`wire, this`iter
      ensures Valid() && |iter| == |old(iter)| - k
    {
      hide EncodeAll;
      assert iter == iter[..k] + iter[k..];
      assert wire + iter == wire + iter[..k] + iter[k..];
      wire := wire + iter[..k];
      iter := iter[k..];
    }

    /** populate_out_iter: the next page of the tail, or the end of the message */
    method PopulateOut()
      requires Valid() && iter == []
      modifies this`iter, this`encResid, this`live
      ensures Valid() && (old(encResid) > 0 ==> iter != []) && (old(encResid) == 0 ==> Idle() && !live)
    {
      hide EncodeAll;
      if encResid > 0 {
        var n := if encResid <= PAGE_SIZE then encResid else PAGE_SIZE;
        var from := |encPages| - encResid;
        assert encPages[from..] == encPages[from..from + n] + encPages[from + n..];
        iter := encPages[from..from + n];
        assert wire + [] + encPages[from..] == wire + encPages[from..from + n] + encPages[from + n..];
        encResid := encResid - n;
      } else {
        live := false;
      }
    }

    /** ceph_con_v2_revoke: what is sealed already is sent all the same */
    method Revoke()
      requires Valid()
      modifies this`live
      ensures Valid() && wire == old(wire) && iter == old(iter) && encResid == old(encResid) && nonce == old(nonce)
    {
      live := false;
    }
  }
}

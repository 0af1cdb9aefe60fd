/** Where in a stream the decoder finds its frames, position by position, with no word of scanning. */
module SbusFrames {
  import opened Bits
  import opened SbusPacking
  import opened Sbus

  /** No frame that begins before position p reaches beyond it. */
  ghost predicate Uncovered(s: seq<Byte>, p: nat)
    decreases p, 0
  {
    forall q: nat :: q < p < q + 25 ==> !Emits(s, q)
  }

  /** A frame begins at position p: a start byte, a valid end byte 24 places on, and no other frame
      is under way. */
  ghost predicate Emits(s: seq<Byte>, p: nat)
    decreases p, 1
  {
    p + 25 <= |s| && s[p] == START_BYTE && ValidEndByte(s[p + 24]) && Uncovered(s, p)
  }

  /** A start byte there turns out to begin no frame. */
  ghost predicate Rejects(s: seq<Byte>, p: nat)
  {
    p + 25 <= |s| && s[p] == START_BYTE && !ValidEndByte(s[p + 24]) && Uncovered(s, p)
  }

  /** A start byte there still has to wait for the rest of its frame. */
  ghost predicate Waits(s: seq<Byte>, p: nat)
  {
    p < |s| < p + 25 && s[p] == START_BYTE && Uncovered(s, p)
  }

  ghost function EmittedBelow(s: seq<Byte>, n: nat): seq<Frame>
  {
    if n == 0 then []
    else if Emits(s, n - 1) then EmittedBelow(s, n - 1) + [s[n - 1..n - 1 + 25]]
    else EmittedBelow(s, n - 1)
  }

  ghost function RejectedBelow(s: seq<Byte>, n: nat): nat
  {
    if n == 0 then 0 else RejectedBelow(s, n - 1) + if Rejects(s, n - 1) then 1 else 0
  }

  /** Either nothing waits and nothing is kept, or what is kept begins at the first that waits. */
  ghost predicate Keeps(s: seq<Byte>, rest: seq<Byte>)
  {
    if rest == [] then forall p: nat :: !Waits(s, p)
    else
      && |rest| <= |s| && rest == s[|s| - |rest|..] && Waits(s, |s| - |rest|)
      && forall p: nat :: p < |s| - |rest| ==> !Waits(s, p)
  }

  /** The first k bytes can be cut off. */
  ghost predicate Cuts(s: seq<Byte>, k: nat)
  {
    (k == 1 && s != [] && !Emits(s, 0)) || (k == 25 && Emits(s, 0))
  }

  lemma {:induction false} Shifted(s: seq<Byte>, k: nat, p: nat)
    requires Cuts(s, k)
    ensures Uncovered(s, p + k) <==> Uncovered(s[k..], p)
    ensures Emits(s, p + k) <==> Emits(s[k..], p)
    decreases p
  {
    forall q: nat | q < p
      ensures Emits(s, q + k) <==> Emits(s[k..], q)
    {
      Shifted(s, k, q);
    }
    assert Uncovered(s, p + k) <==> Uncovered(s[k..], p) by {
      if Uncovered(s, p + k) {
        forall q: nat | q < p < q + 25
          ensures !Emits(s[k..], q)
        {
          assert !Emits(s, q + k);
        }
      }
      if Uncovered(s[k..], p) {
        forall q: nat | q < p + k < q + 25
          ensures !Emits(s, q)
        {
          if k <= q {
            assert Emits(s, (q - k) + k) <==> Emits(s[k..], q - k);
          } else if 0 < q {
            assert Emits(s, 0) && !Uncovered(s, q);
          }
        }
      }
    }
    if p + k + 25 <= |s| {
      assert s[k..][p] == s[p + k] && s[k..][p + 24] == s[p + k + 24];
    }
  }

  lemma SliceOfRest(s: seq<Byte>, k: nat, p: nat)
    requires k + p + 25 <= |s|
    ensures s[k..][p..p + 25] == s[p + k..p + k + 25]
    ensures s[k..][p] == s[p + k] && s[k..][p + 24] == s[p + k + 24]
  {
  }

  lemma {:induction false} EmittedCut(s: seq<Byte>, k: nat, n: nat)
    requires Cuts(s, k) && n + k <= |s|
    ensures EmittedBelow(s, n + k) == EmittedBelow(s, k) + EmittedBelow(s[k..], n)
    ensures RejectedBelow(s, n + k) == RejectedBelow(s, k) + RejectedBelow(s[k..], n)
  {
    if n != 0 {
      EmittedCut(s, k, n - 1);
      Shifted(s, k, n - 1);
      if n + k + 24 <= |s| {
        SliceOfRest(s, k, n - 1);
      }
    }
  }

  /** The positions under the first frame begin nothing. */
  lemma {:induction false} UnderFirst(s: seq<Byte>, n: nat)
    requires Emits(s, 0) && 1 <= n <= 25
    ensures EmittedBelow(s, n) == [s[..25]] && RejectedBelow(s, n) == 0
  {
    if n == 1 {
      assert s[0..25] == s[..25] && EmittedBelow(s, 0) == [];
    } else {
      UnderFirst(s, n - 1);
      assert !Uncovered(s, n - 1);
    }
  }

  lemma AtFirst(s: seq<Byte>)
    requires s != [] && !Emits(s, 0)
    ensures EmittedBelow(s, 1) == [] && RejectedBelow(s, 1) == if Rejects(s, 0) then 1 else 0
  {
    assert EmittedBelow(s, 0) == [] && RejectedBelow(s, 0) == 0;
  }

  /** What is kept of the rest is kept of the whole. */
  lemma KeptCut(s: seq<Byte>, k: nat, rest: seq<Byte>)
    requires Cuts(s, k) && !Waits(s, 0) && Keeps(s[k..], rest)
    ensures Keeps(s, rest)
  {
    forall p: nat
      ensures p < k ==> !Waits(s, p)
      ensures Waits(s, p + k) <==> Waits(s[k..], p)
    {
      Shifted(s, k, p);
      if 0 < p < k {
        assert Emits(s, 0) && !Uncovered(s, p);
      }
      assert p + k < |s| ==> s[k..][p] == s[p + k];
    }
    forall p: nat | k <= p
      ensures Waits(s, p) <==> Waits(s[k..], p - k)
    {
      assert Waits(s, (p - k) + k) <==> Waits(s[k..], p - k);
    }
  }

  /** What the decoder finds in a stream, exactly: a frame at every position where one begins, in order;
      it counts as invalid every start byte, outside of those frames, that turns out to begin none;
      and it keeps what begins with the first that still has to wait. */
  lemma {:induction false} ScanFinds(s: seq<Byte>)
    ensures Scan(s).frames == EmittedBelow(s, |s|)
    ensures Scan(s).invalid == RejectedBelow(s, |s|)
    ensures Keeps(s, Scan(s).rest)
    decreases |s|
  {
    if s == [] {
      assert EmittedBelow(s, 0) == [] && RejectedBelow(s, 0) == 0;
    } else {
      assert Uncovered(s, 0);
      if s[0] == START_BYTE && |s| < 25 {
        ShortEmits(s, |s|);
      } else {
        var k := if Emits(s, 0) then 25 else 1;
        ScanFinds(s[k..]);
        EmittedCut(s, k, |s| - k);
        KeptCut(s, k, Scan(s[k..]).rest);
        if k == 25 {
          UnderFirst(s, 25);
        } else {
          AtFirst(s);
        }
      }
    }
  }

  lemma {:induction false} ShortEmits(s: seq<Byte>, n: nat)
    requires |s| < 25 && n <= |s| && s != [] && s[0] == START_BYTE && Uncovered(s, 0)
    ensures EmittedBelow(s, n) == [] && RejectedBelow(s, n) == 0 && Keeps(s, s)
  {
    if n != 0 {
      ShortEmits(s, n - 1);
    }
  }
}

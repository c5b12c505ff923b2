/** Trusted-input ingestion, the rule shared by the client and the legacy server:
    each player has a lock holding the last accepted frame number; an input whose
    frame is below the lock is dropped, otherwise the lock moves to its frame and
    its translation is taken. */
module TrustedInputs {
  import opened Common

  /** What a client reports each frame: its frame number and its translation. */
  datatype TrustedInput = TrustedInput(frame: U32, translation: Vec3)

  /** The drop test of the lock loop: strictly below the lock. */
  predicate Dropped(lock: U32, input: TrustedInput) {
    input.frame < lock
  }

  /** The inputs of a batch that survive the lock, in arrival order. */
  function Accepted(lock: U32, inputs: seq<TrustedInput>): seq<TrustedInput>
    decreases |inputs|
  {
    if inputs == [] then []
    else if Dropped(lock, inputs[0]) then Accepted(lock, inputs[1..])
    else [inputs[0]] + Accepted(inputs[0].frame, inputs[1..])
  }

  /** The lock after a batch. */
  function FinalLock(lock: U32, inputs: seq<TrustedInput>): U32
    decreases |inputs|
  {
    if inputs == [] then lock
    else if Dropped(lock, inputs[0]) then FinalLock(lock, inputs[1..])
    else FinalLock(inputs[0].frame, inputs[1..])
  }

  function Translations(inputs: seq<TrustedInput>): (r: seq<Vec3>)
    ensures |r| == |inputs|
    ensures forall k :: 0 <= k < |inputs| ==> r[k] == inputs[k].translation
  {
    if inputs == [] then [] else [inputs[0].translation] + Translations(inputs[1..])
  }

  /** The lock never moves down. */
  lemma {:induction false} LockNeverDecreases(lock: U32, inputs: seq<TrustedInput>)
    ensures lock <= FinalLock(lock, inputs)
    decreases |inputs|
  {
    if inputs != [] {
      if Dropped(lock, inputs[0]) {
        LockNeverDecreases(lock, inputs[1..]);
      } else {
        LockNeverDecreases(inputs[0].frame, inputs[1..]);
      }
    }
  }

  /** The accepted frames are at least the starting lock, never decrease, are taken
      from the batch, and the final lock is the last accepted frame (or the
      starting lock when everything was dropped). */
  lemma {:induction false} AcceptedFrames(lock: U32, inputs: seq<TrustedInput>)
    ensures var acc := Accepted(lock, inputs);
      && (forall k :: 0 <= k < |acc| ==> lock <= acc[k].frame)
      && (forall i, j :: 0 <= i < j < |acc| ==> acc[i].frame <= acc[j].frame)
      && (forall k :: 0 <= k < |acc| ==> acc[k] in inputs)
      && FinalLock(lock, inputs) == (if acc == [] then lock else acc[|acc| - 1].frame)
    decreases |inputs|
  {
    if inputs != [] {
      var rest := inputs[1..];
      if Dropped(lock, inputs[0]) {
        AcceptedFrames(lock, rest);
        var acc := Accepted(lock, rest);
        assert forall k :: 0 <= k < |acc| ==> acc[k] in inputs by {
          forall k | 0 <= k < |acc| ensures acc[k] in inputs {
            assert acc[k] in rest;
          }
        }
      } else {
        var f := inputs[0].frame;
        AcceptedFrames(f, rest);
        var tail := Accepted(f, rest);
        var acc := [inputs[0]] + tail;
        assert Accepted(lock, inputs) == acc;
        forall k | 0 <= k < |acc| ensures lock <= acc[k].frame && acc[k] in inputs {
          if k > 0 {
            assert acc[k] == tail[k - 1];
            assert tail[k - 1] in rest;
          }
        }
        forall i, j | 0 <= i < j < |acc| ensures acc[i].frame <= acc[j].frame {
          assert acc[j] == tail[j - 1];
          if i > 0 {
            assert acc[i] == tail[i - 1];
          }
        }
      }
    }
  }

  /** Processing one more input: it is accepted exactly when its frame is not below
      the lock in force when it arrives, and then the lock becomes its frame. In
      particular an input whose frame equals the lock is accepted. */
  lemma {:induction false} AcceptOneMore(lock: U32, inputs: seq<TrustedInput>, x: TrustedInput)
    ensures Accepted(lock, inputs + [x])
         == Accepted(lock, inputs) + (if Dropped(FinalLock(lock, inputs), x) then [] else [x])
    ensures FinalLock(lock, inputs + [x])
         == (if Dropped(FinalLock(lock, inputs), x) then FinalLock(lock, inputs) else x.frame)
    decreases |inputs|
  {
    if inputs == [] {
      assert inputs + [x] == [x];
      assert [x][1..] == [];
    } else {
      assert (inputs + [x])[0] == inputs[0];
      assert (inputs + [x])[1..] == inputs[1..] + [x];
      if Dropped(lock, inputs[0]) {
        AcceptOneMore(lock, inputs[1..], x);
      } else {
        AcceptOneMore(inputs[0].frame, inputs[1..], x);
      }
    }
  }

  /** Ingesting a batch in two parts is ingesting it at once: the second part starts
      from the lock the first part left. */
  lemma {:induction false} IngestSplit(lock: U32, a: seq<TrustedInput>, b: seq<TrustedInput>)
    ensures Accepted(lock, a + b) == Accepted(lock, a) + Accepted(FinalLock(lock, a), b)
    ensures FinalLock(lock, a + b) == FinalLock(FinalLock(lock, a), b)
    decreases |a|
  {
    if a == [] {
      assert a + b == b;
    } else {
      assert (a + b)[0] == a[0];
      assert (a + b)[1..] == a[1..] + b;
      if Dropped(lock, a[0]) {
        IngestSplit(lock, a[1..], b);
      } else {
        IngestSplit(a[0].frame, a[1..], b);
      }
    }
  }

  /** The client's position cache is a double-ended queue whose front is index 0:
      ingestion pushes each accepted translation to the front. */
  function PushFrontAll(cache: seq<Vec3>, translations: seq<Vec3>): seq<Vec3> {
    Reversed(translations) + cache
  }

  /** Read from the back (the end `pop_back` takes from), the queue is first-in
      first-out: everything queued earlier leaves before the new translations, and
      the new ones leave in the order they arrived. */
  lemma OldestFirst(cache: seq<Vec3>, translations: seq<Vec3>)
    ensures Reversed(PushFrontAll(cache, translations)) == Reversed(cache) + translations
  {
    ReversedConcat(Reversed(translations), cache);
    ReversedTwice(translations);
  }

  lemma TranslationsSnoc(inputs: seq<TrustedInput>, x: TrustedInput)
    ensures Translations(inputs + [x]) == Translations(inputs) + [x.translation]
  {
    var l, r := Translations(inputs + [x]), Translations(inputs) + [x.translation];
    assert |l| == |r|;
    forall k | 0 <= k < |l| ensures l[k] == r[k] {
      assert (inputs + [x])[k] == if k < |inputs| then inputs[k] else x;
    }
  }

  /** Pushing one more translation to the front. */
  lemma PushFrontSnoc(cache: seq<Vec3>, translations: seq<Vec3>, t: Vec3)
    ensures PushFrontAll(cache, translations + [t]) == [t] + PushFrontAll(cache, translations)
  {
    ReversedConcat(translations, [t]);
    assert Reversed([t]) == [t];
  }

  /** The translation a player's transform holds after the server applies a batch:
      that of the last accepted input, or the current one when none is accepted. */
  function LastTranslation(current: Vec3, accepted: seq<TrustedInput>): Vec3 {
    if accepted == [] then current else accepted[|accepted| - 1].translation
  }

  /** The drop rule on the sequence of frames 5, 3, 5, 7 starting from lock 0: the
      frame-3 input is dropped, the repeated frame 5 is kept, the lock ends at 7 and
      the last translation taken is that of frame 7. */
  lemma RepeatedFrameIsAccepted(t1: Vec3, t2: Vec3, t3: Vec3, t4: Vec3)
    ensures var batch := [TrustedInput(5, t1), TrustedInput(3, t2), TrustedInput(5, t3), TrustedInput(7, t4)];
      && Accepted(0, batch) == [TrustedInput(5, t1), TrustedInput(5, t3), TrustedInput(7, t4)]
      && FinalLock(0, batch) == 7
      && LastTranslation(Zero3, Accepted(0, batch)) == t4
  {
    var batch := [TrustedInput(5, t1), TrustedInput(3, t2), TrustedInput(5, t3), TrustedInput(7, t4)];
    assert batch[1..] == [TrustedInput(3, t2), TrustedInput(5, t3), TrustedInput(7, t4)];
    assert batch[1..][1..] == [TrustedInput(5, t3), TrustedInput(7, t4)];
    assert batch[1..][1..][1..] == [TrustedInput(7, t4)];
    assert batch[1..][1..][1..][1..] == [];
    assert Accepted(5, batch[1..][1..][1..]) == [TrustedInput(7, t4)];
    assert Accepted(5, batch[1..][1..]) == [TrustedInput(5, t3), TrustedInput(7, t4)];
    assert Accepted(5, batch[1..]) == Accepted(5, batch[1..][1..]);
    assert FinalLock(5, batch[1..][1..][1..]) == FinalLock(7, []) == 7;
    assert FinalLock(5, batch[1..][1..]) == FinalLock(5, batch[1..][1..][1..]);
    assert FinalLock(0, batch) == FinalLock(5, batch[1..]) == FinalLock(5, batch[1..][1..]);
  }
}

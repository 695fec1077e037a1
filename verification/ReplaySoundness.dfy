/** What a client program can be told in the zkVM, whatever witness it is given: the checks that
    `get_oracle_and_blob_provider` makes (op-succinct/utils/client/src/witness/mod.rs) and the answers that
    follow (preimage_store.rs, oracle/blob_provider.rs). */
module ReplaySoundness {
  import opened Requests
  import opened WitnessReplay

  lemma ReplayAnswer(m: map<Key, Bytes>, stack: Stacked, client: Client, n: nat, i: nat)
    requires i < n
    ensures var history := Replay(m, stack, client, n).0;
            && |history| == n && Replay(m, stack, client, i).0 == history[..i]
            && history[i] == ReplayStep(m, Replay(m, stack, client, i).1, client(history[..i])).1
  {
    ReplayPrefix(m, stack, client, i, n);
    ReplayPrefix(m, stack, client, i + 1, n);
    ReplayPrefix(m, stack, client, n, n);
    ReplayNext(m, stack, client, i);
  }

  /** Whatever is in the preimage map: once its check has passed, every preimage that any client is given is
      authentic, and under a key that cannot be checked nothing is ever given. The same key is always given
      the same bytes. */
  lemma AnswersAreAuthentic(env: Env, m: map<Key, Bytes>, stack: Stacked, client: Client, n: nat, i: nat)
    requires AllValid(env, m) && i < n
    ensures var history := Replay(m, stack, client, n).0;
            |history| == n &&
            match client(history[..i])
            case Get(key) =>
              && (history[i].Preimage? ==> Authentic(env, key, history[i].value))
              && (history[i] == if key in m then Preimage(m[key]) else Error)
              && (Uncheckable(key) ==> history[i] == Error)
            case GetExact(key, length) =>
              && (history[i].Preimage? ==> Authentic(env, key, history[i].value) && |history[i].value| == length)
              && (history[i].Preimage? ==> key in m && history[i].value == m[key])
              && (Uncheckable(key) ==> history[i] == Error)
            case GetBlobs(_) => !history[i].Preimage?
  {
    ReplayAnswer(m, stack, client, n, i);
    hide Replay;
  }

  ghost predicate CollisionFree(hash: Bytes -> nat) { forall a, b :: hash(a) == hash(b) ==> a == b }

  /** Under collision-free hashes the client is given the one true preimage of a hash, or nothing. */
  lemma AnswersAreTrue(env: Env, m: map<Key, Bytes>, stack: Stacked, client: Client, n: nat, i: nat, truth: Bytes)
    requires AllValid(env, m) && i < n && CollisionFree(env.keccak256) && CollisionFree(env.sha256)
    ensures var history := Replay(m, stack, client, n).0;
            |history| == n &&
            match client(history[..i])
            case Get(key) => history[i].Preimage? ==>
              && (key == Key(Keccak256, env.keccak256(truth)) ==> history[i].value == truth)
              && (key == Key(Sha256, env.sha256(truth)) ==> history[i].value == truth)
            case GetExact(key, _) => history[i].Preimage? ==>
              && (key == Key(Keccak256, env.keccak256(truth)) ==> history[i].value == truth)
              && (key == Key(Sha256, env.sha256(truth)) ==> history[i].value == truth)
            case GetBlobs(_) => true
  {
    AnswersAreAuthentic(env, m, stack, client, n, i);
    hide Replay, AllValid;
  }

  /** A witness with one value that does not hash to its key, or one key that cannot be checked, does not
      pass. */
  lemma ForgedDoesNotPass(env: Env, m: map<Key, Bytes>, key: Key)
    requires key in m
    ensures key.keyType == Keccak256 && env.keccak256(m[key]) != key.data ==> !AllValid(env, m)
    ensures key.keyType == Sha256 && env.sha256(m[key]) != key.data ==> !AllValid(env, m)
    ensures key.keyType in {Precompile, BlobKey} ==> !AllValid(env, m)
  {
  }

  // ---------------------------------------------------------------- blobs

  /** Blob `b` stands in the blob data beside a commitment whose versioned hash is `hash`. */
  ghost predicate CommittedAs(env: Env, d: BlobData, b: Blob, hash: nat) {
    exists i :: 0 <= i < |d.blobs| && i < |d.commitments| && d.blobs[i] == b
                && env.versionedHash(d.commitments[i]) == hash
  }

  /** Every entry of the stack stands in the blob data. */
  ghost predicate FromData(env: Env, d: BlobData, stack: Stacked) {
    forall e :: e in stack ==> CommittedAs(env, d, e.1, e.0)
  }

  /** The blobs are handed out only if their proofs were verified together. */
  lemma LoadVerifies(env: Env, d: BlobData)
    ensures Load(env, d).Some? <==> env.verifyBatch(d.blobs, d.commitments, d.proofs)
  {
  }

  lemma LoadedFromData(env: Env, d: BlobData)
    requires Load(env, d).Some?
    ensures FromData(env, d, Load(env, d).value)
  {
    var vs := Versioned(env, d);
    forall e | e in Load(env, d).value ensures CommittedAs(env, d, e.1, e.0) {
      var i :| 0 <= i < |Reverse(vs)| && Reverse(vs)[i] == e;
      assert vs[|vs| - 1 - i] == e;
    }
  }

  /** Popped blobs stand in the data under one of the hashes asked for, and what is left on the stack was
      there before. */
  lemma {:induction false} PoppedFromData(env: Env, d: BlobData, stack: Stacked, hashes: seq<nat>)
    requires FromData(env, d, stack) && Pop(stack, hashes).Some?
    ensures var (rest, blobs) := Pop(stack, hashes).value;
            && FromData(env, d, rest) && |blobs| <= |hashes|
            && forall b :: b in blobs ==> exists h :: h in hashes && CommittedAs(env, d, b, h)
    decreases |hashes|
  {
    if hashes != [] {
      var (hash, blob) := stack[|stack| - 1];
      assert stack[|stack| - 1] in stack && hashes[0] in hashes;
      PoppedFromData(env, d, stack[..|stack| - 1], hashes[1..]);
      assert forall h :: h in hashes[1..] ==> h in hashes;
      hide CommittedAs;
    }
  }

  /** One entry is popped per hash, the last one first. If there are fewer entries than hashes, a pop meets an
      empty list and panics. */
  lemma {:induction false} PopsOnePerHash(stack: Stacked, hashes: seq<nat>)
    ensures Pop(stack, hashes).Some? <==> |stack| >= |hashes|
    ensures Pop(stack, hashes).Some? ==> Pop(stack, hashes).value.0 == stack[..|stack| - |hashes|]
    decreases |hashes|
  {
    if hashes != [] && stack != [] {
      var below := stack[..|stack| - 1];
      PopsOnePerHash(below, hashes[1..]);
      if |stack| >= |hashes| { assert below[..|below| - |hashes[1..]|] == stack[..|stack| - |hashes|]; }
    } else {
      assert stack[..|stack|] == stack;
    }
  }

  /** A popped blob whose hash is the one asked for is handed out. */
  lemma {:induction false} PopsMatching(stack: Stacked, hashes: seq<nat>, j: nat)
    requires j < |hashes| <= |stack| && stack[|stack| - 1 - j].0 == hashes[j]
    ensures Pop(stack, hashes).Some? && stack[|stack| - 1 - j].1 in Pop(stack, hashes).value.1
    decreases |hashes|
  {
    PopsOnePerHash(stack, hashes);
    if j > 0 { PopsMatching(stack[..|stack| - 1], hashes[1..], j - 1); }
  }

  lemma BlobsOrPanic(m: map<Key, Bytes>, stack: Stacked, hashes: seq<nat>)
    ensures var (rest, a) := ReplayStep(m, stack, Query.GetBlobs(hashes));
            if |stack| < |hashes| then a == Panic else a.Blobs? && rest == stack[..|stack| - |hashes|]
  {
    PopsOnePerHash(stack, hashes);
  }

  lemma {:induction false} StackFromData(env: Env, d: BlobData, m: map<Key, Bytes>, stack: Stacked, client: Client,
                                         n: nat)
    requires FromData(env, d, stack)
    ensures FromData(env, d, Replay(m, stack, client, n).1)
  {
    if n > 0 {
      StackFromData(env, d, m, stack, client, n - 1);
      var (history, st) := Replay(m, stack, client, n - 1);
      var q := client(history);
      if q.GetBlobs? && Pop(st, q.hashes).Some? { PoppedFromData(env, d, st, q.hashes); }
      hide FromData, Pop;
    }
  }

  /** Whatever blob data the witness holds: each blob that any client is given stands in that data beside a
      commitment with one of the hashes asked for. */
  lemma BlobsAreCommitted(env: Env, m: map<Key, Bytes>, d: BlobData, client: Client, n: nat, i: nat, b: Blob)
    requires Load(env, d).Some? && i < n
    requires var history := Replay(m, Load(env, d).value, client, n).0;
             |history| == n && history[i].Blobs? && b in history[i].blobs
    ensures var q := client(Replay(m, Load(env, d).value, client, n).0[..i]);
            q.GetBlobs? && exists h :: h in q.hashes && CommittedAs(env, d, b, h)
    ensures env.verifyBatch(d.blobs, d.commitments, d.proofs)
  {
    LoadVerifies(env, d);
    var stack := Load(env, d).value;
    LoadedFromData(env, d);
    StackFromData(env, d, m, stack, client, i);
    ReplayAnswer(m, stack, client, n, i);
    var (history, st) := Replay(m, stack, client, i);
    var q := client(history);
    if q.GetBlobs? && Pop(st, q.hashes).Some? { PoppedFromData(env, d, st, q.hashes); }
    hide Replay, FromData, Pop, CommittedAs, Load;
  }
}

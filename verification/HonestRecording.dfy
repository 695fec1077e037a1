/** Recording against an honest oracle (op-succinct/utils/host/src/witness_generation): the client is told what
    the oracle and the blob provider say, and no save panics; so a recorded run can always be replayed. */
module HonestRecording {
  import opened Requests
  import opened WitnessReplay

  /** A value is saved if it is authentic and the key has no other one; else the save panics. */
  lemma SavesIff(env: Env, w: Witness, key: Key, value: Bytes)
    ensures var (w', a) := Saved(env, w, key, value);
            if Authentic(env, key, value) && (key !in w.preimages || w.preimages[key] == value)
            then a == Preimage(value) && w' == w.(preimages := w.preimages[key := value])
            else a == Panic && w' == w
  {
  }

  /** The oracle answers every hash with a preimage of it, and nothing under a key that cannot be checked. */
  ghost predicate HonestOracle(env: Env) {
    forall k :: env.oracle(k).Some? ==> Authentic(env, k, env.oracle(k).value)
  }

  /** What the oracle or the provider says to a query; under a wrong length the oracle fails. */
  function Told(env: Env, history: seq<Answer>, q: Query): Answer {
    match q
    case Get(key) => if env.oracle(key).Some? then Preimage(env.oracle(key).value) else Error
    case GetExact(key, length) =>
      if env.oracle(key).Some? && |env.oracle(key).value| == length then Preimage(env.oracle(key).value) else Error
    case GetBlobs(hashes) =>
      if env.provider(history, hashes).Some? then Blobs(env.provider(history, hashes).value) else Error
  }

  lemma RecordStepTells(env: Env, history: seq<Answer>, w: Witness, q: Query)
    requires HonestOracle(env) && Honest(env, w)
    ensures RecordStep(env, history, w, q).1 == Told(env, history, q)
  {
  }

  /** Every query of a recorded run is answered by the oracle or the provider, and none of them panics. */
  lemma {:induction false} RecordingTells(env: Env, client: Client, n: nat)
    requires HonestOracle(env)
    ensures var history := Record(env, client, n).0;
            && |history| == n
            && (forall i: nat :: i < n ==> history[i] == Told(env, history[..i], client(history[..i])))
            && Panic !in history
  {
    if n > 0 {
      RecordingTells(env, client, n - 1);
      RecordedIsOracle(env, client, n - 1);
      var (before, w) := Record(env, client, n - 1);
      RecordStepTells(env, before, w, client(before));
      var history := Record(env, client, n).0;
      assert history == before + [Told(env, before, client(before))];
      hide Record, RecordStep, HonestOracle, Honest, Told;
      NeverPanics(env, before, client(before));
      forall i: nat | i < n ensures history[i] == Told(env, history[..i], client(history[..i])) {
        assert history[..i] == before[..i];
      }
    }
  }

  lemma NeverPanics(env: Env, history: seq<Answer>, q: Query)
    ensures Told(env, history, q) != Panic
  {
  }

  /** With an honest oracle the replay of a run gives the very same answers, from a witness that passes its
      checks, if and only if no recorded preimage was asked for under a wrong length. */
  lemma HonestRunsReplay(env: Env, client: Client, n: nat)
    requires HonestOracle(env) && BlobsMatch(env, client, n) && VerifiesHonest(env)
    ensures var (history, w) := Record(env, client, n);
            && AllValid(env, w.preimages) && Load(env, w.blobData).Some?
            && (Replay(w.preimages, Load(env, w.blobData).value, client, n) == (history, [])
                <==> LengthsFit(env, client, w.preimages, n))
  {
    hide *;
    RecordingTells(env, client, n);
    ReplayIsIdentity(env, client, n);
  }
}

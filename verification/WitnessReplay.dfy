/** Witness recording and replay. The host runs the client program against an oracle and a blob
    provider and records what they answer (op-succinct/utils/host/src/witness_generation); the zkVM
    runs the same program against the recording (op-succinct/utils/client/src/witness and oracle). */
module WitnessReplay {
  import opened Requests
  import BlockSpans

  type Bytes = seq<bv8>
  type Blob = nat

  /** Blobs with their versioned hashes, the next one last. */
  type Stacked = seq<(nat, Blob)>

  datatype KeyType = Local | Keccak256 | GlobalGeneric | Sha256 | Precompile | BlobKey

  /** `data` is what a key keeps of a hash next to its type byte. */
  datatype Key = Key(keyType: KeyType, data: nat)

  /** What a client program asks for, and what it gets. `Panic` ends the program. */
  datatype Query = Get(key: Key) | GetExact(key: Key, length: nat) | GetBlobs(hashes: seq<nat>)
  datatype Answer = Preimage(value: Bytes) | Blobs(blobs: seq<Blob>) | Error | Panic

  /** A client program: the next query depends on all answers so far, in any way. */
  type Client = seq<Answer> -> Query

  datatype BlobData = BlobData(blobs: seq<Blob>, commitments: seq<nat>, proofs: seq<nat>)

  datatype Env = Env(
    keccak256: Bytes -> nat,
    sha256: Bytes -> nat,
    commitment: Blob -> nat,
    kzgProof: Blob -> nat,
    versionedHash: nat -> nat,
    verifyBatch: (seq<Blob>, seq<nat>, seq<nat>) -> bool,       // false is an error of the call
    oracle: Key -> Option<Bytes>,                               // None is an error
    provider: (seq<Answer>, seq<nat>) -> Option<seq<Blob>>)     // may depend on when it is asked

  datatype Witness = Witness(preimages: map<Key, Bytes>, blobData: BlobData)

  const EMPTY: Witness := Witness(map[], BlobData([], [], []))

  // ---------------------------------------------------------------- preimage checks

  datatype Check = Valid | Invalid | Panics

  /** A key that neither the program nor the host can check. */
  predicate Uncheckable(key: Key) { key.keyType == Precompile || key.keyType == BlobKey }

  /** The value is a preimage of the key: it hashes to it, if the key is a hash. Local and global keys may have
      any value. */
  predicate Authentic(env: Env, key: Key, value: Bytes) {
    && (key.keyType == Keccak256 ==> env.keccak256(value) == key.data)
    && (key.keyType == Sha256 ==> env.sha256(value) == key.data)
    && !Uncheckable(key)
  }

  /** `check_preimage`. */
  function CheckPreimage(env: Env, key: Key, value: Bytes): (r: Check)
    ensures r == Valid <==> Authentic(env, key, value)
    ensures r == Panics <==> Uncheckable(key)
  {
    match key.keyType
    case Keccak256 => if env.keccak256(value) == key.data then Valid else Invalid
    case Sha256 => if env.sha256(value) == key.data then Valid else Invalid
    case Local => Valid
    case GlobalGeneric => Valid
    case Precompile => Panics
    case BlobKey => Panics
  }

  ghost predicate AllValid(env: Env, m: map<Key, Bytes>) {
    forall k :: k in m ==> Authentic(env, k, m[k])
  }

  // ---------------------------------------------------------------- recording

  /** `save_preimage`: an invalid preimage or a second value for a key is a panic. */
  predicate Savable(env: Env, m: map<Key, Bytes>, key: Key, value: Bytes) {
    Authentic(env, key, value) && (key in m ==> m[key] == value)
  }

  function Saved(env: Env, w: Witness, key: Key, value: Bytes): (Witness, Answer) {
    if Savable(env, w.preimages, key, value)
    then (w.(preimages := w.preimages[key := value]), Preimage(value))
    else (w, Panic)
  }

  function Each(f: Blob -> nat, blobs: seq<Blob>): (r: seq<nat>)
    ensures |r| == |blobs| && forall i :: 0 <= i < |blobs| ==> r[i] == f(blobs[i])
  {
    if blobs == [] then [] else [f(blobs[0])] + Each(f, blobs[1..])
  }

  /** The commitments and proofs made for the blobs (`get_blob_data`). */
  function Proofs(env: Env, blobs: seq<Blob>): BlobData {
    BlobData(blobs, Each(env.commitment, blobs), Each(env.kzgProof, blobs))
  }

  function Append(a: BlobData, b: BlobData): BlobData {
    BlobData(a.blobs + b.blobs, a.commitments + b.commitments, a.proofs + b.proofs)
  }

  /** One query of the online run. */
  function RecordStep(env: Env, history: seq<Answer>, w: Witness, q: Query): (Witness, Answer) {
    match q
    case Get(key) => (match env.oracle(key) case None => (w, Error) case Some(v) => Saved(env, w, key, v))
    case GetExact(key, n) =>
      (match env.oracle(key)
       case None => (w, Error)
       case Some(v) => if |v| == n then Saved(env, w, key, v) else (w, Error))
    case GetBlobs(hashes) =>
      match env.provider(history, hashes)
      case None => (w, Error)
      case Some(bs) => (w.(blobData := Append(w.blobData, Proofs(env, bs))), Blobs(bs))
  }

  /** The first n queries of the online run: the answers and the witness recorded so far. */
  function Record(env: Env, client: Client, n: nat): (seq<Answer>, Witness) {
    if n == 0 then ([], EMPTY)
    else
      var (history, w) := Record(env, client, n - 1);
      var (w', a) := RecordStep(env, history, w, client(history));
      (history + [a], w')
  }

  // ---------------------------------------------------------------- replaying

  function Reverse<T>(s: seq<T>): (r: seq<T>)
    ensures |r| == |s| && forall i :: 0 <= i < |s| ==> r[i] == s[|s| - 1 - i]
  {
    seq(|s|, i requires 0 <= i < |s| => s[|s| - 1 - i])
  }

  /** Commitment hashes zipped with blobs. */
  function Versioned(env: Env, d: BlobData): (r: Stacked)
    ensures |r| == BlockSpans.Min(|d.commitments|, |d.blobs|)
    ensures forall i :: 0 <= i < |r| ==> r[i] == (env.versionedHash(d.commitments[i]), d.blobs[i])
  {
    seq(BlockSpans.Min(|d.commitments|, |d.blobs|),
        i requires 0 <= i < BlockSpans.Min(|d.commitments|, |d.blobs|) =>
          (env.versionedHash(d.commitments[i]), d.blobs[i]))
  }

  /** `BlobStore::from`: the list is reversed, so that popping its back yields the first blob. `None` is
      the panic of a failed KZG verification. */
  function Load(env: Env, d: BlobData): Option<Stacked> {
    if env.verifyBatch(d.blobs, d.commitments, d.proofs) then Some(Reverse(Versioned(env, d))) else None
  }

  /** Pops one blob per hash and keeps those whose hash matches; `None` is a pop from an empty list. */
  function Pop(stack: Stacked, hashes: seq<nat>): Option<(Stacked, seq<Blob>)>
    decreases |hashes|
  {
    if hashes == [] then Some((stack, []))
    else if stack == [] then None
    else
      var (hash, blob) := stack[|stack| - 1];
      match Pop(stack[..|stack| - 1], hashes[1..])
      case None => None
      case Some((rest, blobs)) => Some((rest, if hash == hashes[0] then [blob] + blobs else blobs))
  }

  /** One query of the replay. */
  function ReplayStep(m: map<Key, Bytes>, stack: Stacked, q: Query): (Stacked, Answer) {
    match q
    case Get(key) => (stack, if key in m then Preimage(m[key]) else Error)
    case GetExact(key, n) => (stack, if key !in m then Error else if |m[key]| == n then Preimage(m[key]) else Panic)
    case GetBlobs(hashes) =>
      match Pop(stack, hashes)
      case None => (stack, Panic)
      case Some((rest, bs)) => (rest, Blobs(bs))
  }

  function Replay(m: map<Key, Bytes>, stack: Stacked, client: Client, n: nat): (seq<Answer>, Stacked) {
    if n == 0 then ([], stack)
    else
      var (history, st) := Replay(m, stack, client, n - 1);
      var (st', a) := ReplayStep(m, st, client(history));
      (history + [a], st')
  }

  // ---------------------------------------------------------------- the program's own objects

  class PreimageStore {
    var preimageMap: map<Key, Bytes>

    constructor ()
      ensures preimageMap == map[]
    {
      preimageMap := map[];
    }

    /** `false` is a panic; a conflicting value has then already been written. */
    method SavePreimage(env: Env, key: Key, value: Bytes) returns (ok: bool)
      modifies this
      ensures ok <==> Authentic(env, key, value) && (key in old(preimageMap) ==> old(preimageMap)[key] == value)
      ensures preimageMap == if Authentic(env, key, value) then old(preimageMap)[key := value]
        else old(preimageMap)
    {
      if CheckPreimage(env, key, value) != Valid { return false; }
      var previous := if key in preimageMap then Some(preimageMap[key]) else None;
      preimageMap := preimageMap[key := value];
      ok := previous == None || previous.value == value;
    }

    /** The check passes exactly if every entry is authentic. The entries are visited in no particular order, so
        of an entry that does not hash to its key and one that cannot be checked either may be met first. */
    method CheckPreimages(env: Env) returns (r: Check)
      ensures r == Valid <==> forall k :: k in preimageMap ==> Authentic(env, k, preimageMap[k])
      ensures r == Panics ==> exists k :: k in preimageMap && Uncheckable(k)
      ensures r == Invalid ==>
        exists k :: k in preimageMap && !Uncheckable(k) && !Authentic(env, k, preimageMap[k])
    {
      var pending := preimageMap.Keys;
      while pending != {}
        invariant pending <= preimageMap.Keys
        invariant forall k :: k in preimageMap && k !in pending ==> Authentic(env, k, preimageMap[k])
        decreases |pending|
      {
        var key :| key in pending;
        var check := CheckPreimage(env, key, preimageMap[key]);
        if check != Valid { return check; }
        pending := pending - {key};
      }
      return Valid;
    }

    method Get(key: Key) returns (r: Answer)
      ensures ([], r) == ReplayStep(preimageMap, [], Query.Get(key))
    {
      if key !in preimageMap { return Error; }
      return Preimage(preimageMap[key]);
    }

    /** Copying into a buffer of another length is a panic. */
    method GetExact(key: Key, length: nat) returns (r: Answer)
      ensures ([], r) == ReplayStep(preimageMap, [], Query.GetExact(key, length))
    {
      r := Get(key);
      if r.Preimage? && |r.value| != length { r := Panic; }
    }
  }

  class PreimageWitnessCollector {
    const store: PreimageStore

    constructor (store: PreimageStore)
      ensures this.store == store
    {
      this.store := store;
    }

    method Save(env: Env, key: Key, value: Bytes) returns (r: Answer)
      modifies store
      ensures forall d :: var (w, a) := Saved(env, Witness(old(store.preimageMap), d), key, value);
                          r == a && (r != Panic ==> store.preimageMap == w.preimages)
    {
      var ok := store.SavePreimage(env, key, value);
      r := if ok then Preimage(value) else Panic;
    }

    method Get(env: Env, key: Key) returns (r: Answer)
      modifies store
      ensures forall h, d :: var (w, a) := RecordStep(env, h, Witness(old(store.preimageMap), d), Query.Get(key));
                             r == a && (r != Panic ==> store.preimageMap == w.preimages)
    {
      var value := env.oracle(key);
      if value == None { return Error; }
      r := Save(env, key, value.value);
    }

    /** The online oracle fails on a wrong length, and nothing is recorded. */
    method GetExact(env: Env, key: Key, length: nat) returns (r: Answer)
      modifies store
      ensures forall h, d :: var (w, a) :=
        RecordStep(env, h, Witness(old(store.preimageMap), d), Query.GetExact(key, length));
                             r == a && (r != Panic ==> store.preimageMap == w.preimages)
    {
      var value := env.oracle(key);
      if value == None || |value.value| != length { return Error; }
      r := Save(env, key, value.value);
    }
  }

  class OnlineBlobStore {
    var store: BlobData

    constructor ()
      ensures store == EMPTY.blobData
    {
      store := BlobData([], [], []);
    }

    method GetBlobs(env: Env, history: seq<Answer>, hashes: seq<nat>) returns (r: Answer)
      modifies this
      ensures forall m :: var (w, a) := RecordStep(env, history, Witness(m, old(store)), Query.GetBlobs(hashes));
                          r == a && store == w.blobData
    {
      var answer := env.provider(history, hashes);
      if answer == None { return Error; }
      var blobs := answer.value;
      var i := 0;
      while i < |blobs|
        invariant 0 <= i <= |blobs|
        invariant store == Append(old(store), Proofs(env, blobs[..i]))
      {
        store := BlobData(store.blobs + [blobs[i]], store.commitments + [env.commitment(blobs[i])],
                          store.proofs + [env.kzgProof(blobs[i])]);
        assert blobs[..i + 1] == blobs[..i] + [blobs[i]];
        assert Proofs(env, blobs[..i + 1]) == Append(Proofs(env, blobs[..i]), Proofs(env, [blobs[i]]));
        i := i + 1;
      }
      assert blobs[..i] == blobs;
      return Blobs(blobs);
    }
  }

  class BlobStore {
    var versionedBlobs: Stacked

    constructor (versionedBlobs: Stacked)
      ensures this.versionedBlobs == versionedBlobs
    {
      this.versionedBlobs := versionedBlobs;
    }

    method GetBlobs(hashes: seq<nat>) returns (r: Answer)
      modifies this
      ensures r == ReplayStep(map[], old(versionedBlobs), Query.GetBlobs(hashes)).1
      ensures r != Panic ==> versionedBlobs == ReplayStep(map[], old(versionedBlobs), Query.GetBlobs(hashes)).0
    {
      var blobs: seq<Blob> := [];
      var i := 0;
      assert hashes[0..] == hashes && Resume([], Pop(versionedBlobs, hashes)) == Pop(versionedBlobs, hashes) by {
        ResumeNothing(Pop(versionedBlobs, hashes));
      }
      while i < |hashes|
        invariant 0 <= i <= |hashes|
        invariant Pop(old(versionedBlobs), hashes) == Resume(blobs, Pop(versionedBlobs, hashes[i..]))
      {
        PopOne(blobs, versionedBlobs, hashes[i..]);
        assert hashes[i..][1..] == hashes[i + 1..];
        hide Pop;
        if versionedBlobs == [] { return Panic; }
        var (hash, blob) := versionedBlobs[|versionedBlobs| - 1];
        versionedBlobs := versionedBlobs[..|versionedBlobs| - 1];
        if hash == hashes[i] { blobs := blobs + [blob]; }
        i := i + 1;
      }
      return Blobs(blobs);
    }
  }

  ghost function Resume(blobs: seq<Blob>, r: Option<(Stacked, seq<Blob>)>): Option<(Stacked, seq<Blob>)> {
    match r case None => None case Some((rest, more)) => Some((rest, blobs + more))
  }

  lemma ResumeNothing(r: Option<(Stacked, seq<Blob>)>)
    ensures Resume([], r) == r
  {
    assert r.Some? ==> [] + r.value.1 == r.value.1;
  }

  lemma PopOne(blobs: seq<Blob>, stack: Stacked, hashes: seq<nat>)
    requires hashes != []
    ensures stack == [] ==> Resume(blobs, Pop(stack, hashes)) == None
    ensures stack != [] ==>
      var (hash, blob) := stack[|stack| - 1];
      Resume(blobs, Pop(stack, hashes))
      == Resume(if hash == hashes[0] then blobs + [blob] else blobs, Pop(stack[..|stack| - 1], hashes[1..]))
  {
    if stack != [] {
      var (hash, blob) := stack[|stack| - 1];
      var r := Pop(stack[..|stack| - 1], hashes[1..]);
      assert r.Some? ==> blobs + ([blob] + r.value.1) == (blobs + [blob]) + r.value.1;
    }
  }

  // ---------------------------------------------------------------- replay equals recording

  /** Every blob request of the first n queries was answered by one blob per hash, in order. */
  ghost predicate BlobsMatch(env: Env, client: Client, n: nat) {
    forall i: nat :: i < n ==> Answered(env, client(Record(env, client, i).0), Record(env, client, i + 1).0)
  }

  ghost predicate Answered(env: Env, q: Query, history: seq<Answer>) {
    q.GetBlobs? ==>
      && history != [] && var a := history[|history| - 1];
      && a.Blobs? && |a.blobs| == |q.hashes|
      && forall j :: 0 <= j < |q.hashes| ==> env.versionedHash(env.commitment(a.blobs[j])) == q.hashes[j]
  }

  /** Some query among the first n asks for a recorded preimage under a wrong length. */
  ghost predicate WrongLength(m: map<Key, Bytes>, q: Query) {
    q.GetExact? && q.key in m && |m[q.key]| != q.length
  }

  /** Each blob stands beside its own commitment and proof. */
  ghost predicate HonestData(env: Env, d: BlobData) {
    && |d.commitments| == |d.blobs| && |d.proofs| == |d.blobs|
    && forall i :: 0 <= i < |d.blobs| ==>
         d.commitments[i] == env.commitment(d.blobs[i]) && d.proofs[i] == env.kzgProof(d.blobs[i])
  }

  /** KZG verification accepts what was honestly computed from the blobs. */
  ghost predicate VerifiesHonest(env: Env) {
    forall d :: HonestData(env, d) ==> env.verifyBatch(d.blobs, d.commitments, d.proofs)
  }

  lemma {:induction false} EachConcat(f: Blob -> nat, a: seq<Blob>, b: seq<Blob>)
    ensures Each(f, a + b) == Each(f, a) + Each(f, b)
  {
  }

  /** What recording keeps: the stored preimages are the oracle's and pass the check, the blob data is
      what was computed from the blobs. */
  ghost predicate Honest(env: Env, w: Witness) {
    && AllValid(env, w.preimages)
    && (forall k :: k in w.preimages ==> env.oracle(k) == Some(w.preimages[k]))
    && w.blobData == Proofs(env, w.blobData.blobs)
  }

  lemma RecordStepKeepsHonest(env: Env, history: seq<Answer>, w: Witness, q: Query)
    requires Honest(env, w)
    ensures Honest(env, RecordStep(env, history, w, q).0)
  {
    if q.GetBlobs? && env.provider(history, q.hashes).Some? {
      var bs := env.provider(history, q.hashes).value;
      EachConcat(env.commitment, w.blobData.blobs, bs);
      EachConcat(env.kzgProof, w.blobData.blobs, bs);
    }
  }

  lemma {:induction false} RecordedIsOracle(env: Env, client: Client, n: nat)
    ensures |Record(env, client, n).0| == n && Honest(env, Record(env, client, n).1)
  {
    if n > 0 {
      RecordedIsOracle(env, client, n - 1);
      var (history, w) := Record(env, client, n - 1);
      RecordStepKeepsHonest(env, history, w, client(history));
      hide Honest, RecordStep;
    }
  }

  /** Each recorded blob stands beside its own commitment and proof. */
  lemma RecordedDataIsHonest(env: Env, client: Client, n: nat)
    ensures HonestData(env, Record(env, client, n).1.blobData)
  {
    RecordedIsOracle(env, client, n);
    hide Record, AllValid;
  }

  ghost predicate SubMap(a: map<Key, Bytes>, b: map<Key, Bytes>) { forall k :: k in a ==> k in b && a[k] == b[k] }

  ghost predicate Extends(a: (seq<Answer>, Witness), b: (seq<Answer>, Witness)) {
    a.0 <= b.0 && SubMap(a.1.preimages, b.1.preimages) && a.1.blobData.blobs <= b.1.blobData.blobs
  }

  lemma {:induction false} RecordGrows(env: Env, client: Client, i: nat, n: nat)
    requires i <= n
    ensures |Record(env, client, i).0| == i && Extends(Record(env, client, i), Record(env, client, n))
    decreases n - i
  {
    RecordedIsOracle(env, client, i);
    if i < n {
      var r := Record(env, client, i);
      assert Extends(r, Record(env, client, i + 1));
      RecordGrows(env, client, i + 1, n);
      hide Record;
    }
  }

  /** Popping yields the recorded blobs from the first not yet popped. */
  lemma {:induction false} PopRecorded(env: Env, bs: seq<Blob>, rest: seq<Blob>, hashes: seq<nat>)
    requires |bs| == |hashes| && forall j :: 0 <= j < |bs| ==> env.versionedHash(env.commitment(bs[j])) == hashes[j]
    ensures Pop(Stack(env, bs + rest), hashes) == Some((Stack(env, rest), bs))
    decreases |bs|
  {
    hide Stack;
    if bs == [] {
      assert bs + rest == rest;
    } else {
      StackPush(env, bs[0], bs[1..] + rest);
      assert bs + rest == [bs[0]] + (bs[1..] + rest);
      assert Stack(env, bs + rest)[..|Stack(env, bs + rest)| - 1] == Stack(env, bs[1..] + rest);
      PopRecorded(env, bs[1..], rest, hashes[1..]);
      assert bs == [bs[0]] + bs[1..];
    }
  }

  lemma StackPush(env: Env, blob: Blob, rest: seq<Blob>)
    ensures Stack(env, [blob] + rest) == Stack(env, rest) + [(env.versionedHash(env.commitment(blob)), blob)]
  {
    var all := Stack(env, [blob] + rest);
    var popped := Stack(env, rest);
    StackShape(env, [blob] + rest);
    StackShape(env, rest);
    hide Stack;
    forall i | 0 <= i < |rest| ensures all[i] == popped[i] {
      assert ([blob] + rest)[|rest| - i] == rest[|rest| - 1 - i];
    }
  }

  lemma StackShape(env: Env, blobs: seq<Blob>)
    ensures |Stack(env, blobs)| == |blobs|
    ensures forall i :: 0 <= i < |blobs| ==>
              Stack(env, blobs)[i] == (env.versionedHash(env.commitment(blobs[|blobs| - 1 - i])),
                blobs[|blobs| - 1 - i])
  {
    hide Reverse, Versioned, Each;
  }

  ghost function Stack(env: Env, blobs: seq<Blob>): Stacked {
    Reverse(Versioned(env, Proofs(env, blobs)))
  }

  ghost predicate LengthsFit(env: Env, client: Client, m: map<Key, Bytes>, n: nat) {
    forall i: nat :: i < n ==> !WrongLength(m, client(Record(env, client, i).0))
  }

  /** The blobs that were recorded after the first i queries. */
  ghost function Remaining(env: Env, client: Client, n: nat, i: nat): seq<Blob>
    requires i <= n
  {
    RecordGrows(env, client, i, n);
    Record(env, client, n).1.blobData.blobs[|Record(env, client, i).1.blobData.blobs|..]
  }

  lemma PreimageAnswers(env: Env, client: Client, n: nat, i: nat, stack: Stacked)
    requires i < n && Panic !in Record(env, client, n).0
    requires !WrongLength(Record(env, client, n).1.preimages, client(Record(env, client, i).0))
    requires !client(Record(env, client, i).0).GetBlobs?
    ensures |Record(env, client, n).0| == n
    ensures ReplayStep(Record(env, client, n).1.preimages, stack, client(Record(env, client, i).0))
         == (stack, Record(env, client, n).0[i])
    ensures Record(env, client, i + 1).1.blobData == Record(env, client, i).1.blobData
  {
    RecordGrows(env, client, i, n);
    RecordGrows(env, client, i + 1, n);
    RecordedIsOracle(env, client, n);
    var (h', seen') := Record(env, client, i + 1);
    assert h'[i] == Record(env, client, n).0[i];
  }

  /** What the blob request of step i added to the witness. */
  lemma BlobsRecorded(env: Env, client: Client, n: nat, i: nat) returns (bs: seq<Blob>)
    requires i < n && BlobsMatch(env, client, n)
    requires client(Record(env, client, i).0).GetBlobs?
    ensures |Record(env, client, n).0| == n && Record(env, client, n).0[i] == Blobs(bs)
    ensures Remaining(env, client, n, i) == bs + Remaining(env, client, n, i + 1)
    ensures var hashes := client(Record(env, client, i).0).hashes;
            |bs| == |hashes| && forall j :: 0 <= j < |bs| ==> env.versionedHash(env.commitment(bs[j])) == hashes[j]
  {
    HistoryStep(env, client, n, i);
    RecordGrows(env, client, i, n);
    RecordGrows(env, client, i + 1, n);
    var (h, seen) := Record(env, client, i);
    var (h', seen') := Record(env, client, i + 1);
    assert Answered(env, client(h), h');
    bs := h'[i].blobs;
    assert seen'.blobData.blobs == seen.blobData.blobs + bs;
    hide Record, SubMap, BlobsMatch;
  }

  lemma BlobAnswers(env: Env, client: Client, n: nat, i: nat)
    requires i < n && BlobsMatch(env, client, n)
    requires client(Record(env, client, i).0).GetBlobs?
    ensures |Record(env, client, n).0| == n
    ensures ReplayStep(Record(env, client, n).1.preimages, Stack(env, Remaining(env, client, n, i)),
      client(Record(env, client, i).0))
         == (Stack(env, Remaining(env, client, n, i + 1)), Record(env, client, n).0[i])
  {
    hide Record, Stack, Remaining, BlobsMatch, Pop;
    var bs := BlobsRecorded(env, client, n, i);
    PopRecorded(env, bs, Remaining(env, client, n, i + 1), client(Record(env, client, i).0).hashes);
  }

  /** After i queries the replay has given the recorded answers and holds the blobs recorded later. */
  lemma {:induction false} ReplayFollows(env: Env, client: Client, n: nat, i: nat)
    requires i <= n && Panic !in Record(env, client, n).0 && BlobsMatch(env, client, n)
    requires LengthsFit(env, client, Record(env, client, n).1.preimages, n)
    ensures var w := Record(env, client, n).1;
            Replay(w.preimages, Stack(env, w.blobData.blobs), client, i)
            == (Record(env, client, i).0, Stack(env, Remaining(env, client, n, i)))
    decreases i
  {
    hide *;
    if i == 0 {
      ReplayZero(env, client, n);
    } else {
      var (h, w) := (Record(env, client, i - 1).0, Record(env, client, n).1);
      var rest := Stack(env, Remaining(env, client, n, i - 1));
      FitsAt(env, client, w.preimages, n, i - 1);
      ReplayFollows(env, client, n, i - 1);
      HistoryStep(env, client, n, i - 1);
      if client(h).GetBlobs? {
        BlobAnswers(env, client, n, i - 1);
      } else {
        PreimageAnswers(env, client, n, i - 1, rest);
        RemainingUnchanged(env, client, n, i - 1);
      }
      ReplayNext(w.preimages, Stack(env, w.blobData.blobs), client, i - 1);
    }
  }

  lemma FitsAt(env: Env, client: Client, m: map<Key, Bytes>, n: nat, i: nat)
    requires LengthsFit(env, client, m, n) && i < n
    ensures !WrongLength(m, client(Record(env, client, i).0))
  {
  }

  lemma ReplayZero(env: Env, client: Client, n: nat)
    ensures var (history, w) := Record(env, client, n);
            Replay(w.preimages, Stack(env, w.blobData.blobs), client, 0)
            == (Record(env, client, 0).0, Stack(env, Remaining(env, client, n, 0)))
  {
    assert Remaining(env, client, n, 0) == Record(env, client, n).1.blobData.blobs;
  }

  lemma HistoryStep(env: Env, client: Client, n: nat, i: nat)
    requires i < n
    ensures |Record(env, client, n).0| == n
    ensures Record(env, client, i + 1).0 == Record(env, client, i).0 + [Record(env, client, n).0[i]]
  {
    RecordGrows(env, client, i, i + 1);
    RecordGrows(env, client, i + 1, n);
    RecordGrows(env, client, n, n);
  }

  lemma RemainingUnchanged(env: Env, client: Client, n: nat, i: nat)
    requires i < n && Record(env, client, i + 1).1.blobData == Record(env, client, i).1.blobData
    ensures Remaining(env, client, n, i + 1) == Remaining(env, client, n, i)
  {
  }

  lemma ReplayNext(m: map<Key, Bytes>, stack: Stacked, client: Client, i: nat)
    ensures var (h, st) := Replay(m, stack, client, i);
            var (st', a) := ReplayStep(m, st, client(h));
            Replay(m, stack, client, i + 1) == (h + [a], st')
  {
  }

  lemma {:induction false} ReplayPrefix(m: map<Key, Bytes>, stack: Stacked, client: Client, i: nat, n: nat)
    requires i <= n
    ensures |Replay(m, stack, client, i).0| == i && Replay(m, stack, client, i).0 <= Replay(m, stack, client, n).0
    decreases n
  {
    if i < n {
      ReplayPrefix(m, stack, client, i, n - 1);
    } else if n > 0 {
      ReplayPrefix(m, stack, client, n - 1, n - 1);
    }
  }

  lemma WrongLengthPanics(env: Env, client: Client, stack: Stacked, n: nat, i: nat)
    requires i < n && Panic !in Record(env, client, n).0
    requires WrongLength(Record(env, client, n).1.preimages, client(Record(env, client, i).0))
    ensures Replay(Record(env, client, n).1.preimages, stack, client, n).0 != Record(env, client, n).0
  {
    var m := Record(env, client, n).1.preimages;
    RecordGrows(env, client, i, n);
    ReplayPrefix(m, stack, client, i, n);
    ReplayPrefix(m, stack, client, i + 1, n);
    ReplayNext(m, stack, client, i);
    if Replay(m, stack, client, i).0 == Record(env, client, i).0 {
      assert Replay(m, stack, client, n).0[i] == Panic;
    }
  }

  /** Replaying a recorded run: the recorded preimages pass their check and the blobs theirs, and if no
      recorded preimage is asked for under a wrong length, every query is answered as it was online,
      no pop meets an empty list, and no blob is left over. That condition is needed: such a query is
      an error online and a panic in the replay. */
  lemma ReplayIsIdentity(env: Env, client: Client, n: nat)
    requires Panic !in Record(env, client, n).0 && BlobsMatch(env, client, n) && VerifiesHonest(env)
    ensures var (history, w) := Record(env, client, n);
            && AllValid(env, w.preimages)
            && Load(env, w.blobData).Some?
            && (Replay(w.preimages, Load(env, w.blobData).value, client, n) == (history, [])
                <==> LengthsFit(env, client, w.preimages, n))
  {
    RecordedIsOracle(env, client, n);
    var (history, w) := Record(env, client, n);
    var blobs := w.blobData.blobs;
    assert Load(env, w.blobData) == Some(Stack(env, blobs)) by {
      assert HonestData(env, Proofs(env, blobs));
    }
    assert Stack(env, []) == [];
    if LengthsFit(env, client, w.preimages, n) {
      ReplayFollows(env, client, n, n);
      assert Remaining(env, client, n, n) == [];
    } else {
      var i: nat :| i < n && WrongLength(w.preimages, client(Record(env, client, i).0));
      WrongLengthPanics(env, client, Stack(env, blobs), n, i);
    }
  }
}

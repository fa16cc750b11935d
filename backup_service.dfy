/** The backup service (backup-service/src/main.rs): an in-memory registry of
    keypairs that `/add_keypair` appends to and `/backup` flushes, one storage
    object per entry, to the bucket `key-backup`. */
module BackupService {
  import opened Prelude
  import opened Http
  import Fmt
  import Serde

  /** The server's `KeyPair`: the two byte vectors exactly as posted. */
  datatype KeyPair = KeyPair(publicKey: seq<byte>, secretKey: seq<byte>)

  /** The body `web::Json<KeyPair>` extracts, as the derived `Deserialize` reads a
      struct: from an object holding `public_key` and `secret_key` exactly once
      each, in any order, other members ignored; or from an array holding the two
      fields in declaration order. Each field must be a byte array. */
  function FromJson(v: Serde.Value): (r: Option<KeyPair>)
    ensures v.Object? ==> (r.Some? <==>
      && Serde.Field(v.members, "public_key").Some?
      && Serde.DecodeBytes(Serde.Field(v.members, "public_key").value).Some?
      && Serde.Field(v.members, "secret_key").Some?
      && Serde.DecodeBytes(Serde.Field(v.members, "secret_key").value).Some?)
    ensures v.Object? && r.Some? ==>
      && Serde.DecodeBytes(Serde.Field(v.members, "public_key").value) == Some(r.value.publicKey)
      && Serde.DecodeBytes(Serde.Field(v.members, "secret_key").value) == Some(r.value.secretKey)
    ensures v.Array? ==> (r.Some? <==>
      |v.items| == 2 && Serde.DecodeBytes(v.items[0]).Some? && Serde.DecodeBytes(v.items[1]).Some?)
    ensures v.Array? && r.Some? ==>
      Serde.DecodeBytes(v.items[0]) == Some(r.value.publicKey) && Serde.DecodeBytes(v.items[1]) == Some(r.value.secretKey)
    ensures !v.Object? && !v.Array? ==> r.None?
  {
    match v
    case Object(members) =>
      (match (Serde.Field(members, "public_key"), Serde.Field(members, "secret_key"))
       case (Some(pk), Some(sk)) => Decoded(pk, sk)
       case _ => None)
    case Array(items) => if |items| == 2 then Decoded(items[0], items[1]) else None
    case _ => None
  }

  /** Both fields read as byte arrays. */
  function Decoded(pk: Serde.Value, sk: Serde.Value): (r: Option<KeyPair>)
    ensures r.Some? <==> Serde.DecodeBytes(pk).Some? && Serde.DecodeBytes(sk).Some?
    ensures r.Some? ==> Serde.DecodeBytes(pk) == Some(r.value.publicKey) && Serde.DecodeBytes(sk) == Some(r.value.secretKey)
  {
    match (Serde.DecodeBytes(pk), Serde.DecodeBytes(sk))
    case (Some(p), Some(s)) => Some(KeyPair(p, s))
    case _ => None
  }

  /** Any object that carries each field once as a byte array is accepted, whatever
      the order of its members and whatever else it carries. */
  lemma ObjectAccepted(members: seq<(string, Serde.Value)>, kp: KeyPair)
    requires Serde.Occurrences(members, "public_key") == [Serde.EncodeBytes(kp.publicKey)]
    requires Serde.Occurrences(members, "secret_key") == [Serde.EncodeBytes(kp.secretKey)]
    ensures FromJson(Serde.Object(members)) == Some(kp)
  {
    Serde.BytesRoundTrip(kp.publicKey);
    Serde.BytesRoundTrip(kp.secretKey);
  }

  /** The array form `[public_key, secret_key]` is accepted too. */
  lemma SequenceAccepted(kp: KeyPair)
    ensures FromJson(Serde.Array([Serde.EncodeBytes(kp.publicKey), Serde.EncodeBytes(kp.secretKey)])) == Some(kp)
  {
    Serde.BytesRoundTrip(kp.publicKey);
    Serde.BytesRoundTrip(kp.secretKey);
  }

  const BUCKET := "key-backup"
  const OBJECT_PREFIX := "backup-keys-"

  /** `format!("backup-keys-{}", i)`. */
  function ObjectName(i: nat): string
  {
    OBJECT_PREFIX + Fmt.Decimal(i)
  }

  /** Every registry index gets its own object name. */
  lemma ObjectNameInjective(i: nat, j: nat)
    requires ObjectName(i) == ObjectName(j)
    ensures i == j
  {
    var p := |OBJECT_PREFIX|;
    assert Fmt.Decimal(i) == ObjectName(i)[p..];
    assert Fmt.Decimal(j) == ObjectName(j)[p..];
    Fmt.DecimalInjective(i, j);
  }

  const DUMP_HEAD := "KeyPair { public_key: ["
  const DUMP_MIDDLE := ", secret_key: ["
  const DUMP_TAIL := " }"

  /** `format!("{:?}", keypair)` for the derived `Debug`: a text dump such as
      "KeyPair { public_key: [2, 7], secret_key: [1] }", secret key included. */
  function Dump(kp: KeyPair): string
  {
    "KeyPair { public_key: " + Fmt.DebugBytes(kp.publicKey)
      + ", secret_key: " + Fmt.DebugBytes(kp.secretKey) + " }"
  }

  lemma DumpShape(kp: KeyPair)
    ensures Dump(kp) == DUMP_HEAD + Fmt.Listing(kp.publicKey, DUMP_MIDDLE + Fmt.Listing(kp.secretKey, DUMP_TAIL))
  {
    var p, q := Fmt.Elements(kp.publicKey), Fmt.Elements(kp.secretKey);
    calc {
      Dump(kp);
      "KeyPair { public_key: " + ("[" + p + "]") + ", secret_key: " + ("[" + q + "]") + " }";
      DUMP_HEAD + (p + "]" + (DUMP_MIDDLE + (q + "]" + DUMP_TAIL)));
    }
  }

  /** The dump is not a structured format, but it does determine the entry it
      was made from: two different keypairs never produce the same object content. */
  lemma DumpInjective(a: KeyPair, b: KeyPair)
    requires Dump(a) == Dump(b)
    ensures a == b
  {
    var sa := Fmt.Listing(a.secretKey, DUMP_TAIL);
    var sb := Fmt.Listing(b.secretKey, DUMP_TAIL);
    DumpShape(a);
    DumpShape(b);
    var n := |DUMP_HEAD|;
    assert Fmt.Listing(a.publicKey, DUMP_MIDDLE + sa) == Dump(a)[n..];
    assert Fmt.Listing(b.publicKey, DUMP_MIDDLE + sb) == Dump(b)[n..];
    Fmt.ListingInjective(a.publicKey, DUMP_MIDDLE + sa, b.publicKey, DUMP_MIDDLE + sb);
    var m := |DUMP_MIDDLE|;
    assert sa == (DUMP_MIDDLE + sa)[m..];
    assert sb == (DUMP_MIDDLE + sb)[m..];
    Fmt.ListingInjective(a.secretKey, DUMP_TAIL, b.secretKey, DUMP_TAIL);
  }

  /** One `upload_object` request: the bucket, the object name and the data. */
  datatype Upload = Upload(bucket: string, name: string, data: string)

  /** Entry `i` is uploaded as object `backup-keys-<i>` of bucket `key-backup`,
      holding the entry's debug dump. */
  function UploadOf(i: nat, kp: KeyPair): Upload
  {
    Upload(BUCKET, ObjectName(i), Dump(kp))
  }

  /** The uploads a flush of `entries` issues, in index order. */
  function Uploads(entries: seq<KeyPair>): (us: seq<Upload>)
    ensures |us| == |entries|
    ensures forall i :: 0 <= i < |entries| ==> us[i] == UploadOf(i, entries[i])
  {
    seq(|entries|, i requires 0 <= i < |entries| => UploadOf(i, entries[i]))
  }

  /** How the storage service answers an upload: accepted, or refused with the
      error that `?` propagates. The service is outside the model. */
  type Answer = Upload -> Result<()>

  /** The position of the first upload the storage service refuses, or `|us|`
      when it accepts them all. */
  function FirstRefused(us: seq<Upload>, answer: Answer): (k: nat)
    ensures k <= |us|
  {
    if |us| == 0 then 0
    else if answer(us[0]).Err? then 0
    else 1 + FirstRefused(us[1..], answer)
  }

  /** Every upload before the first refusal is accepted, and the one at it is refused. */
  lemma {:induction false} FirstRefusedSpec(us: seq<Upload>, answer: Answer)
    ensures forall j :: 0 <= j < FirstRefused(us, answer) ==> answer(us[j]).Ok?
    ensures FirstRefused(us, answer) < |us| ==> answer(us[FirstRefused(us, answer)]).Err?
  {
    if |us| > 0 && answer(us[0]).Ok? {
      FirstRefusedSpec(us[1..], answer);
      forall j | 0 <= j < FirstRefused(us, answer) ensures answer(us[j]).Ok? {
        if j > 0 { assert us[j] == us[1..][j - 1]; }
      }
    }
  }

  /** The first refusal is the one after an unbroken run of accepted uploads. */
  lemma RefusedAt(us: seq<Upload>, answer: Answer, k: nat)
    requires k <= |us|
    requires forall j :: 0 <= j < k ==> answer(us[j]).Ok?
    requires k < |us| ==> answer(us[k]).Err?
    ensures FirstRefused(us, answer) == k
  {
    FirstRefusedSpec(us, answer);
  }

  /** One flush step: past an accepted upload the first refusal lies further on;
      at a refused one it has been reached. */
  lemma FlushStep(us: seq<Upload>, answer: Answer, i: nat)
    requires i < |us| && i <= FirstRefused(us, answer)
    ensures answer(us[i]).Ok? ==> i < FirstRefused(us, answer)
    ensures answer(us[i]).Err? ==> i == FirstRefused(us, answer)
  {
    FirstRefusedSpec(us, answer);
  }

  /** How many uploads a flush attempts: all of them, or up to and including the refused one. */
  function Attempted(us: seq<Upload>, answer: Answer): nat
  {
    var k := FirstRefused(us, answer);
    if k < |us| then k + 1 else k
  }

  /** What `backup_keys_to_gcs` returns for a registry holding `entries`. */
  function FlushResult(entries: seq<KeyPair>, answer: Answer): Result<()>
  {
    var us := Uploads(entries);
    var k := FirstRefused(us, answer);
    FirstRefusedSpec(us, answer);
    if k == |us| then Ok(()) else Err(answer(us[k]).error)
  }

  /** The `/backup` handler's response to a flush result. */
  function BackupResponse(r: Result<()>): (resp: HttpResponse)
    ensures resp.status == OK <==> r.Ok?
    ensures r.Ok? ==> resp.body == "Backup Successful"
    ensures r.Err? ==> resp.status == INTERNAL_SERVER_ERROR && resp.body == "Backup Failed: " + r.error
  {
    match r
    case Ok(_) => HttpResponse(OK, "Backup Successful")
    case Err(e) => HttpResponse(INTERNAL_SERVER_ERROR, "Backup Failed: " + e)
  }

  /** A storage object is identified by its bucket and its name. */
  type ObjectId = (string, string)

  function Id(u: Upload): ObjectId
  {
    (u.bucket, u.name)
  }

  function IdsOf(us: seq<Upload>): set<ObjectId>
  {
    set i | 0 <= i < |us| :: Id(us[i])
  }

  ghost predicate DistinctIds(us: seq<Upload>)
  {
    forall i, j :: 0 <= i < j < |us| ==> Id(us[i]) != Id(us[j])
  }

  /** The bucket contents after the accepted uploads `us`, in order; an upload
      replaces an existing object of the same name. */
  function Stored(objects: map<ObjectId, string>, us: seq<Upload>): map<ObjectId, string>
    decreases |us|
  {
    if |us| == 0 then objects else Stored(objects[Id(us[0]) := us[0].data], us[1..])
  }

  lemma {:induction false} StoredSnoc(objects: map<ObjectId, string>, us: seq<Upload>, u: Upload)
    ensures Stored(objects, us + [u]) == Stored(objects, us)[Id(u) := u.data]
    decreases |us|
  {
    if |us| > 0 {
      assert (us + [u])[1..] == us[1..] + [u];
      StoredSnoc(objects[Id(us[0]) := us[0].data], us[1..], u);
    }
  }

  /** With distinct names, every upload leaves its own data behind, and every
      object no upload names keeps its old data. */
  lemma {:induction false} StoredContents(objects: map<ObjectId, string>, us: seq<Upload>)
    requires DistinctIds(us)
    ensures Stored(objects, us).Keys == objects.Keys + IdsOf(us)
    ensures forall i :: 0 <= i < |us| ==> Stored(objects, us)[Id(us[i])] == us[i].data
    ensures forall id :: id in objects && id !in IdsOf(us) ==> Stored(objects, us)[id] == objects[id]
    decreases |us|
  {
    if |us| > 0 {
      var m := objects[Id(us[0]) := us[0].data];
      StoredContents(m, us[1..]);
      assert IdsOf(us) == {Id(us[0])} + IdsOf(us[1..]) by {
        forall id | id in IdsOf(us) ensures id in {Id(us[0])} + IdsOf(us[1..]) {
          var i :| 0 <= i < |us| && Id(us[i]) == id;
          if i > 0 { assert Id(us[1..][i - 1]) == id; }
        }
      }
      assert Id(us[0]) !in IdsOf(us[1..]);
      forall i | 0 <= i < |us|
        ensures Stored(objects, us)[Id(us[i])] == us[i].data
      {
        if i > 0 { assert us[1..][i - 1] == us[i]; }
      }
    }
  }

  /** Distinct registry indices give distinct object names. */
  lemma UploadsDistinct(entries: seq<KeyPair>)
    ensures DistinctIds(Uploads(entries))
  {
    var us := Uploads(entries);
    forall i, j | 0 <= i < j < |us| ensures Id(us[i]) != Id(us[j]) {
      if Id(us[i]) == Id(us[j]) {
        ObjectNameInjective(i, j);
      }
    }
  }

  /** A flush succeeds exactly when the storage service accepts every entry's upload;
      in particular an empty registry flushes successfully. */
  lemma FlushOkIff(entries: seq<KeyPair>, answer: Answer)
    ensures FlushResult(entries, answer).Ok?
      <==> forall i :: 0 <= i < |entries| ==> answer(UploadOf(i, entries[i])).Ok?
  {
    var us := Uploads(entries);
    var k := FirstRefused(us, answer);
    FirstRefusedSpec(us, answer);
    if k < |us| {
      assert !answer(UploadOf(k, entries[k])).Ok?;
    }
  }

  /** A flush fails with the error of the first refused upload, and that is where it stops. */
  lemma FlushStopsAtFirstRefusal(entries: seq<KeyPair>, answer: Answer, k: nat)
    requires k < |entries| && answer(UploadOf(k, entries[k])).Err?
    requires forall j :: 0 <= j < k ==> answer(UploadOf(j, entries[j])).Ok?
    ensures FirstRefused(Uploads(entries), answer) == k
    ensures Attempted(Uploads(entries), answer) == k + 1
    ensures FlushResult(entries, answer) == Err(answer(UploadOf(k, entries[k])).error)
  {
    RefusedAt(Uploads(entries), answer, k);
  }

  /** The identities of the objects `backup-keys-0` .. `backup-keys-<k-1>`. */
  function NamesBelow(k: nat): set<ObjectId>
  {
    set i | 0 <= i < k :: (BUCKET, ObjectName(i))
  }

  lemma PrefixIds(entries: seq<KeyPair>, k: nat)
    requires k <= |entries|
    ensures IdsOf(Uploads(entries)[..k]) == NamesBelow(k)
  {
    var done := Uploads(entries)[..k];
    forall id | id in IdsOf(done) ensures id in NamesBelow(k) {
      var i :| 0 <= i < k && Id(done[i]) == id;
    }
    forall i | 0 <= i < k ensures (BUCKET, ObjectName(i)) in IdsOf(done) {
      assert Id(done[i]) == (BUCKET, ObjectName(i));
    }
  }

  lemma NotBelow(k: nat, j: nat)
    requires k <= j
    ensures (BUCKET, ObjectName(j)) !in NamesBelow(k)
  {
    if (BUCKET, ObjectName(j)) in NamesBelow(k) {
      var i :| 0 <= i < k && (BUCKET, ObjectName(i)) == (BUCKET, ObjectName(j));
      ObjectNameInjective(i, j);
    }
  }

  /** The objects a flush leaves behind: entries `0..k-1` (all of them on success)
      are stored under `backup-keys-<i>` with their dumps, and the objects of the
      later indices are exactly as they were before the flush. */
  lemma FlushWrites(objects: map<ObjectId, string>, entries: seq<KeyPair>, answer: Answer)
    ensures var k := FirstRefused(Uploads(entries), answer);
      var after := Stored(objects, Uploads(entries)[..k]);
      && after.Keys == objects.Keys + NamesBelow(k)
      && (forall i :: 0 <= i < k ==>
            (BUCKET, ObjectName(i)) in after && after[(BUCKET, ObjectName(i))] == Dump(entries[i]))
      && (forall j :: k <= j < |entries| ==>
            ((BUCKET, ObjectName(j)) in after <==> (BUCKET, ObjectName(j)) in objects))
      && (forall j :: k <= j < |entries| && (BUCKET, ObjectName(j)) in objects ==>
            after[(BUCKET, ObjectName(j))] == objects[(BUCKET, ObjectName(j))])
  {
    var us := Uploads(entries);
    var k := FirstRefused(us, answer);
    var done := us[..k];
    UploadsDistinct(entries);
    assert DistinctIds(done);
    StoredContents(objects, done);
    PrefixIds(entries, k);
    forall i | 0 <= i < k ensures Id(done[i]) == (BUCKET, ObjectName(i)) && done[i].data == Dump(entries[i]) {
    }
    forall j | k <= j < |entries| ensures (BUCKET, ObjectName(j)) !in IdsOf(done) {
      NotBelow(k, j);
    }
  }

  /** Replaying accepted uploads overlays the objects they write on what was there. */
  lemma {:induction false} StoredOverlay(objects: map<ObjectId, string>, us: seq<Upload>)
    ensures Stored(objects, us) == objects + Stored(map[], us)
    decreases |us|
  {
    if |us| > 0 {
      var id, d := Id(us[0]), us[0].data;
      StoredOverlay(objects[id := d], us[1..]);
      StoredOverlay(map[id := d], us[1..]);
      assert objects[id := d] == objects + map[id := d];
      assert map[][id := d] == map[id := d];
    }
  }

  /** Flushing an unchanged registry again, with every upload accepted, leaves the
      same objects: the second flush overwrites each object with the same data. */
  lemma ReflushIdempotent(objects: map<ObjectId, string>, entries: seq<KeyPair>)
    ensures var us := Uploads(entries);
      Stored(Stored(objects, us), us) == Stored(objects, us)
  {
    var us := Uploads(entries);
    StoredOverlay(objects, us);
    StoredOverlay(Stored(objects, us), us);
    var w := Stored(map[], us);
    assert objects + w + w == objects + w;
  }

  /** A registry that has grown re-uploads its earlier entries under the same
      names and adds the next index. */
  lemma UploadsGrow(entries: seq<KeyPair>, kp: KeyPair)
    ensures Uploads(entries + [kp]) == Uploads(entries) + [UploadOf(|entries|, kp)]
  {
    assert forall i :: 0 <= i < |entries| ==> (entries + [kp])[i] == entries[i];
  }

  /** The cloud storage bucket as the flush sees it: every request it receives,
      in order, and the objects it holds. */
  class ObjectStore {
    var requests: seq<Upload>
    var objects: map<ObjectId, string>

    constructor ()
      ensures requests == [] && objects == map[]
    {
      requests := [];
      objects := map[];
    }

    /** `client.upload_object`: the request is sent; the object is written only if
        the service accepts it. */
    method UploadObject(u: Upload, answer: Answer) returns (r: Result<()>)
      modifies this
      ensures r == answer(u)
      ensures requests == old(requests) + [u]
      ensures objects == if r.Ok? then old(objects)[Id(u) := u.data] else old(objects)
    {
      r := answer(u);
      requests := requests + [u];
      if r.Ok? {
        objects := objects[Id(u) := u.data];
      }
    }
  }

  /** The shared `Vec<KeyPair>` behind the service's lock, as one sequential object. */
  class Registry {
    var entries: seq<KeyPair>

    constructor ()
      ensures entries == []
    {
      entries := [];
    }

    /** `add_keypair`: appends the posted keypair as it is, without validation or
        deduplication, and always answers 200 "KeyPair Added". */
    method AddKeypair(kp: KeyPair) returns (resp: HttpResponse)
      modifies this
      ensures entries == old(entries) + [kp]
      ensures resp == HttpResponse(OK, "KeyPair Added")
    {
      entries := entries + [kp];
      resp := HttpResponse(OK, "KeyPair Added");
    }

    /** `backup_keys_to_gcs`: uploads the entries in index order and stops at the
        first refused upload; the registry itself is only read. */
    method BackupKeysToGcs(store: ObjectStore, answer: Answer) returns (r: Result<()>)
      modifies store
      ensures r == FlushResult(entries, answer)
      ensures store.requests == old(store.requests) + Uploads(entries)[..Attempted(Uploads(entries), answer)]
      ensures store.objects == Stored(old(store.objects), Uploads(entries)[..FirstRefused(Uploads(entries), answer)])
    {
      var es := entries;
      ghost var us := Uploads(es);
      ghost var objects0, requests0 := store.objects, store.requests;
      var i := 0;
      while i < |es|
        invariant 0 <= i <= |es|
        invariant i <= FirstRefused(us, answer)
        invariant store.requests == requests0 + us[..i]
        invariant store.objects == Stored(objects0, us[..i])
      {
        var u := Upload(BUCKET, ObjectName(i), Dump(es[i]));
        assert u == us[i];
        r := store.UploadObject(u, answer);
        assert us[..i + 1] == us[..i] + [u];
        FlushStep(us, answer, i);
        if r.Err? {
          return;
        }
        StoredSnoc(objects0, us[..i], u);
        i := i + 1;
      }
      assert us[..i] == us;
      r := Ok(());
    }

    /** The `/backup` handler: flushes and answers 200 or 500. */
    method Backup(store: ObjectStore, answer: Answer) returns (resp: HttpResponse)
      modifies store
      ensures resp == BackupResponse(FlushResult(entries, answer))
      ensures store.requests == old(store.requests) + Uploads(entries)[..Attempted(Uploads(entries), answer)]
      ensures store.objects == Stored(old(store.objects), Uploads(entries)[..FirstRefused(Uploads(entries), answer)])
    {
      var r := BackupKeysToGcs(store, answer);
      resp := BackupResponse(r);
    }
  }
}

/** Where the two programs meet: the body the wallet posts to `/add_keypair` is
    the one the backup service's `web::Json<KeyPair>` extraction accepts. */
module BackupProtocol {
  import opened Prelude
  import WalletLib
  import BackupService
  import Serde

  lemma {:induction false} OccurrencesOfTwo(a: (string, Serde.Value), b: (string, Serde.Value), key: string)
    ensures Serde.Occurrences([a, b], key)
      == (if a.0 == key then [a.1] else []) + (if b.0 == key then [b.1] else [])
  {
    assert [a, b][1..] == [b];
    assert [b][1..] == [];
  }

  /** What the server stores is exactly what the client sent: both byte vectors
      survive serialisation and deserialisation unchanged. */
  lemma KeyPairRoundTrip(kp: WalletLib.KeyPair)
    ensures BackupService.FromJson(WalletLib.ToJson(kp)) == Some(BackupService.KeyPair(kp.publicKey, kp.secretKey))
  {
    var v := WalletLib.ToJson(kp);
    OccurrencesOfTwo(v.members[0], v.members[1], "public_key");
    OccurrencesOfTwo(v.members[0], v.members[1], "secret_key");
    assert v.members == [v.members[0], v.members[1]];
  }
}

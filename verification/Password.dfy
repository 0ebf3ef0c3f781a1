// password_to_key of ingest/snmp_engine.py: RFC 3414 appendix A.2.
module Password {
  import opened Results
  import opened Bytes

  const FOLD_LENGTH := 1048576

  // A hash algorithm: any function of the octets fed to it.
  type Hash = bytes -> bytes

  // hashlib.new(...): an object that is fed in pieces.
  class Hasher {
    const algorithm: Hash
    var fed: bytes

    constructor (algorithm: Hash)
      ensures this.algorithm == algorithm && fed == []
    {
      this.algorithm := algorithm;
      fed := [];
    }

    method Update(data: bytes)
      modifies this
      ensures fed == old(fed) + data
    {
      fed := fed + data;
    }

    method Digest() returns (digest: bytes)
      ensures digest == algorithm(fed)
    {
      digest := algorithm(fed);
    }
  }

  // The password repeated end to end and cut to n octets.
  function Repeated(pw: bytes, n: nat): (s: bytes)
    requires pw != []
    ensures |s| == n && forall i :: 0 <= i < n ==> s[i] == pw[i % |pw|]
  {
    seq(n, i requires 0 <= i < n => pw[i % |pw|])
  }

  // Appendix A.2: hash the megabyte, then localize with the engine ID.
  function LocalizedKey(algorithm: Hash, pw: bytes, engineId: bytes): Result<bytes> {
    if pw == [] then Err(SnmpError)
    else
      var ku := algorithm(Repeated(pw, FOLD_LENGTH));
      Ok(algorithm(ku + engineId + ku))
  }

  // The key by appendix A.2, from any 1048576 octets that repeat the password.
  lemma LocalizedKeyIs(algorithm: Hash, pw: bytes, engineId: bytes, fold: bytes)
    requires pw != [] && |fold| == 1048576 && forall i :: 0 <= i < |fold| ==> fold[i] == pw[i % |pw|]
    ensures LocalizedKey(algorithm, pw, engineId) == Ok(algorithm(algorithm(fold) + engineId + algorithm(fold)))
  {
    assert fold == Repeated(pw, 1048576);
  }

  lemma RepeatedGrows(pw: bytes, n: nat, chunk: bytes)
    requires pw != []
    requires forall j :: 0 <= j < |chunk| ==> chunk[j] == pw[(n + j) % |pw|]
    ensures Repeated(pw, n) + chunk == Repeated(pw, n + |chunk|)
  {
    forall i | n <= i < n + |chunk|
      ensures (Repeated(pw, n) + chunk)[i] == pw[i % |pw|]
    {
      assert chunk[i - n] == pw[(n + (i - n)) % |pw|];
    }
  }

  method PasswordToKey(algorithm: Hash, pw: bytes, engineId: bytes) returns (r: Result<bytes>)
    ensures r == LocalizedKey(algorithm, pw, engineId)
  {
    if pw == [] {
      return Err(SnmpError);
    }
    var running := new Hasher(algorithm);
    var index := 0;
    var buf := new byte[64](_ => 0);
    var consumed := 0;
    while consumed < FOLD_LENGTH
      invariant fresh(running) && running.algorithm == algorithm && fresh(buf)
      invariant 0 <= consumed <= FOLD_LENGTH && consumed % 64 == 0
      invariant index == consumed
      invariant running.fed == Repeated(pw, consumed)
    {
      for i := 0 to 64
        invariant index == consumed + i && running.fed == Repeated(pw, consumed)
        invariant forall j :: 0 <= j < i ==> buf[j] == pw[(consumed + j) % |pw|]
      {
        buf[i] := pw[index % |pw|];
        index := index + 1;
      }
      RepeatedGrows(pw, consumed, buf[..]);
      running.Update(buf[..]);
      consumed := consumed + 64;
    }
    var ku := running.Digest();
    var localized := new Hasher(algorithm);
    localized.Update(ku + engineId + ku);
    assert [] + (ku + engineId + ku) == ku + engineId + ku;
    var key := localized.Digest();
    return Ok(key);
  }
}

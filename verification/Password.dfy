/** The password codec of src/hash.cpp. A `std::string` is a sequence of bytes. */
module Password {
  import opened Common
  import opened Sha256Spec
  import opened Sha256

  const COLON: Byte := 0x3a

  lemma OrVanishes(diff: Byte, x: Byte, y: Byte)
    ensures diff | (x ^ y) == 0 <==> diff == 0 && x == y
  {
  }

  /** `const_time_equal`: the OR of all differences is zero exactly when there is none. */
  method ConstTimeEqual(a: seq<Byte>, b: seq<Byte>) returns (same: bool)
    ensures same <==> a == b
  {
    if |a| != |b| {
      return false;
    }
    var diff: Byte := 0;
    for i := 0 to |a|
      invariant diff == 0 <==> a[..i] == b[..i]
    {
      OrVanishes(diff, a[i], b[i]);
      assert a[..i + 1] == a[..i] + [a[i]] && b[..i + 1] == b[..i] + [b[i]];
      diff := diff | (a[i] ^ b[i]);
    }
    assert a[..|a|] == a && b[..|b|] == b;
    return diff == 0;
  }

  /** `std::string::find(':')`. */
  function FindColon(s: seq<Byte>): (r: Option<nat>)
    ensures r.None? ==> COLON !in s
    ensures r.Some? ==> r.value < |s| && s[r.value] == COLON && COLON !in s[..r.value]
  {
    if s == [] then None
    else if s[0] == COLON then Some(0)
    else
      var r := FindColon(s[1..]);
      if r.None? then None
      else
        assert s[..r.value + 1] == [s[0]] + s[1..][..r.value];
        Some(r.value + 1)
  }

  function EncodePassword(password: seq<Byte>, salt: seq<Byte>): seq<Byte> {
    salt + [COLON] + Digest(password + salt)
  }

  /** The specification of `verify_password`. */
  function Accepts(password: seq<Byte>, stored: seq<Byte>): bool {
    match FindColon(stored)
    case None => password == stored
    case Some(sep) => stored[sep + 1..] == Digest(password + stored[..sep])
  }

  /** A stored value without a colon is an old plaintext; otherwise the first colon ends the salt, and
      what follows it is compared with the hash value of the salted password. */
  method VerifyPassword(password: seq<Byte>, stored: seq<Byte>) returns (ok: bool)
    ensures ok == Accepts(password, stored)
    ensures COLON !in stored ==> (ok <==> password == stored)
    ensures forall salt, hash | stored == salt + [COLON] + hash && COLON !in salt ::
              ok <==> hash == HexWords(HashOf(password + salt).Words())
  {
    forall salt, hash | stored == salt + [COLON] + hash && COLON !in salt
      ensures Accepts(password, stored) <==> hash == HexWords(HashOf(password + salt).Words())
    {
      ColonEndsSalt(salt, hash);
      assert stored[..|salt|] == salt && stored[|salt| + 1..] == hash;
    }
    var sep := FindColon(stored);
    if sep.None? {
      return password == stored;
    }
    var salt := stored[..sep.value];
    var hash := stored[sep.value + 1..];
    var hex := Sha256Hex(password + salt);
    ok := ConstTimeEqual(hash, hex);
  }

  lemma ColonEndsSalt(salt: seq<Byte>, rest: seq<Byte>)
    requires COLON !in salt
    ensures FindColon(salt + [COLON] + rest) == Some(|salt|)
  {
    var s := salt + [COLON] + rest;
    var r := FindColon(s);
    assert s[|salt|] == COLON;
    assert r.Some? && s[r.value] == COLON;
  }

  /** Verifying against an encoded password compares hash values, and nothing else: the salt is read
      back exactly and the value is never taken for plaintext. */
  lemma VerifyAfterEncode(password: seq<Byte>, attempt: seq<Byte>, salt: seq<Byte>)
    requires COLON !in salt
    ensures FindColon(EncodePassword(password, salt)) == Some(|salt|)
    ensures Accepts(attempt, EncodePassword(password, salt)) <==> HashOf(attempt + salt) == HashOf(password + salt)
    ensures Accepts(password, EncodePassword(password, salt))
  {
    var stored := EncodePassword(password, salt);
    ColonEndsSalt(salt, Digest(password + salt));
    assert stored[..|salt|] == salt && stored[|salt| + 1..] == Digest(password + salt);
    DigestsEqualIffHashesEqual(attempt + salt, password + salt);
  }

  lemma ColonInSaltIsCut(password: seq<Byte>, left: seq<Byte>, right: seq<Byte>)
    requires COLON !in left
    ensures !Accepts(password, EncodePassword(password, left + [COLON] + right))
  {
    var salt := left + [COLON] + right;
    var digest := Digest(password + salt);
    var stored := EncodePassword(password, salt);
    assert stored == left + [COLON] + (right + [COLON] + digest);
    ColonEndsSalt(left, right + [COLON] + digest);
    assert stored[|left| + 1..] == right + [COLON] + digest;
    assert |right + [COLON] + digest| > 64;
  }

  /** The codec round-trips exactly for the salts without a colon: a colon cuts the salt on the way
      back, and then even the right password is refused. */
  lemma OwnPasswordAcceptedIff(password: seq<Byte>, salt: seq<Byte>)
    ensures Accepts(password, EncodePassword(password, salt)) <==> COLON !in salt
  {
    if COLON in salt {
      var k := FindColon(salt).value;
      var left, right := salt[..k], salt[k + 1..];
      assert salt == left + [COLON] + right;
      ColonInSaltIsCut(password, left, right);
    } else {
      VerifyAfterEncode(password, password, salt);
    }
  }
}

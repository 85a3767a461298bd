/**
 * The gateway's in-memory store (internal/database.go): the registered users,
 * checked by e-mail and password, and the current snapshot of the app-store
 * catalog.
 */
module Data {
  import opened Wrappers
  import opened Text

  type Byte = b: int | 0 <= b < 256

  /** A registered user; `password` holds the hex encoding of a bcrypt hash. */
  datatype User = User(id: string, email: string, password: string)

  /** One catalog entry (an SKU) as the gateway keeps and serves it. */
  datatype Sku = Sku(
    xrn: string,
    name: string,
    description: string,
    version: string,
    date: string,
    author: string,
    context: string,
    downloadUrl: string,
    isInstalled: bool)

  // ---------------------------------------------------------------------------
  // Hex encoding of password hashes (encoding/hex, fmt's %x)

  function HexDigit(n: int): char
    requires 0 <= n < 16
  {
    if n < 10 then ('0' as int + n) as char else ('a' as int + n - 10) as char
  }

  /** The value of one hex digit, either case, or -1 for any other character. */
  function HexValue(c: char): (v: int)
    ensures -1 <= v < 16
  {
    if '0' <= c <= '9' then c as int - '0' as int
    else if 'a' <= c <= 'f' then c as int - 'a' as int + 10
    else if 'A' <= c <= 'F' then c as int - 'A' as int + 10
    else -1
  }

  /** fmt.Sprintf("%x", b): two lower-case digits per byte. */
  function HexEncode(b: seq<Byte>): (s: string)
    ensures |s| == 2 * |b|
    ensures forall i :: 0 <= i < |s| ==> HexValue(s[i]) >= 0
    decreases |b|
  {
    if b == [] then []
    else [HexDigit(b[0] / 16), HexDigit(b[0] % 16)] + HexEncode(b[1..])
  }

  /** hex.DecodeString: `None` for an odd length or a non-hex character. */
  function HexDecode(s: string): (r: Option<seq<Byte>>)
    ensures r.Some? ==> |s| == 2 * |r.value|
    ensures |s| % 2 == 1 ==> r == None
    ensures (exists i :: 0 <= i < |s| && HexValue(s[i]) < 0) ==> r == None
    decreases |s|
  {
    if |s| == 0 then Some([])
    else if |s| == 1 then None
    else
      var hi, lo := HexValue(s[0]), HexValue(s[1]);
      if hi < 0 || lo < 0 then None
      else
        match HexDecode(s[2..])
        case None => None
        case Some(rest) =>
          assert forall i :: 2 <= i < |s| ==> s[i] == s[2..][i - 2];
          Some([(hi * 16 + lo) as Byte] + rest)
  }

  /** Every hash the store writes decodes back to the bytes it was made from. */
  lemma {:induction false} HexRoundTrip(b: seq<Byte>)
    ensures HexDecode(HexEncode(b)) == Some(b)
    decreases |b|
  {
    if b != [] {
      var s := HexEncode(b);
      HexRoundTrip(b[1..]);
      assert s[2..] == HexEncode(b[1..]);
      assert HexValue(s[0]) == b[0] / 16;
      assert HexValue(s[1]) == b[0] % 16;
      assert b[0] / 16 * 16 + b[0] % 16 == b[0];
      assert b == [b[0]] + b[1..];
    }
  }

  // ---------------------------------------------------------------------------
  // Passwords and users

  /** bcrypt.CompareHashAndPassword, left abstract: does the password match the hash bytes? */
  type BcryptCompare = (seq<Byte>, string) -> bool

  /** The stored hash is hex-decoded first; a hash that is not valid hex never matches. */
  function ValidPassword(password: string, hash: string, bcrypt: BcryptCompare): (ok: bool)
    ensures HexDecode(hash).None? ==> !ok
    ensures ok ==> bcrypt(HexDecode(hash).value, password)
  {
    match HexDecode(hash)
    case None => false
    case Some(digest) => bcrypt(digest, password)
  }

  /** encryptPassword: the hex text of a bcrypt digest (the digest itself is abstract). */
  function EncryptPassword(digest: seq<Byte>): string
  {
    HexEncode(digest)
  }

  /** A password hash written by EncryptPassword is checked by bcrypt alone. */
  lemma StoredHashIsDecodable(password: string, digest: seq<Byte>, bcrypt: BcryptCompare)
    ensures ValidPassword(password, EncryptPassword(digest), bcrypt) == bcrypt(digest, password)
  {
    HexRoundTrip(digest);
  }

  predicate Matches(u: User, email: string, password: string, bcrypt: BcryptCompare)
  {
    Lower(u.email) == Lower(email) && ValidPassword(password, u.password, bcrypt)
  }

  const UserNotFound := "User not found."

  function FindUserFrom(users: seq<User>, email: string, password: string, bcrypt: BcryptCompare, from: nat): (r: Result<User>)
    requires from <= |users|
    ensures r.Ok? ==> exists i :: from <= i < |users| && users[i] == r.value && Matches(users[i], email, password, bcrypt) &&
                                 forall j :: from <= j < i ==> !Matches(users[j], email, password, bcrypt)
    ensures r.Err? <==> forall i :: from <= i < |users| ==> !Matches(users[i], email, password, bcrypt)
    ensures r.Err? ==> r == Err(UserNotFound)
    decreases |users| - from
  {
    if from == |users| then Err(UserNotFound)
    else if Matches(users[from], email, password, bcrypt) then Ok(users[from])
    else FindUserFrom(users, email, password, bcrypt, from + 1)
  }

  /**
   * Database.FindUser: the first user whose lower-cased e-mail equals the
   * lower-cased argument and whose password checks; otherwise one uniform
   * "User not found." error, whichever of the two checks failed.
   */
  function FindUser(users: seq<User>, email: string, password: string, bcrypt: BcryptCompare): (r: Result<User>)
    ensures r.Ok? ==> exists i :: 0 <= i < |users| && users[i] == r.value && Matches(users[i], email, password, bcrypt) &&
                                 forall j :: 0 <= j < i ==> !Matches(users[j], email, password, bcrypt)
    ensures r.Err? <==> forall i :: 0 <= i < |users| ==> !Matches(users[i], email, password, bcrypt)
    ensures r.Err? ==> r == Err(UserNotFound)
  {
    FindUserFrom(users, email, password, bcrypt, 0)
  }

  lemma {:induction false} FindUserFromIgnoresCase(users: seq<User>, e1: string, e2: string, password: string,
                                                   bcrypt: BcryptCompare, from: nat)
    requires from <= |users|
    requires Lower(e1) == Lower(e2)
    ensures FindUserFrom(users, e1, password, bcrypt, from) == FindUserFrom(users, e2, password, bcrypt, from)
    decreases |users| - from
  {
    if from < |users| {
      FindUserFromIgnoresCase(users, e1, e2, password, bcrypt, from + 1);
    }
  }

  /** The lookup depends on the e-mail only through its lower-cased form. */
  lemma FindUserIgnoresCase(users: seq<User>, e1: string, e2: string, password: string, bcrypt: BcryptCompare)
    requires Lower(e1) == Lower(e2)
    ensures FindUser(users, e1, password, bcrypt) == FindUser(users, e2, password, bcrypt)
  {
    FindUserFromIgnoresCase(users, e1, e2, password, bcrypt, 0);
  }

  // ---------------------------------------------------------------------------
  // SKUs

  /** The error Database.FindSKU reports for an XRN that is not in the snapshot. */
  function SkuNotFound(xrn: string): string
  {
    "App '" + xrn + "' not found."
  }

  function FindSkuFrom(skus: seq<Sku>, xrn: string, from: nat): (r: Result<Sku>)
    requires from <= |skus|
    ensures r.Ok? ==> exists i :: from <= i < |skus| && skus[i] == r.value && r.value.xrn == xrn &&
                                 forall j :: from <= j < i ==> skus[j].xrn != xrn
    ensures r.Err? <==> forall i :: from <= i < |skus| ==> skus[i].xrn != xrn
    ensures r.Err? ==> r == Err(SkuNotFound(xrn))
    decreases |skus| - from
  {
    if from == |skus| then Err(SkuNotFound(xrn))
    else if skus[from].xrn == xrn then Ok(skus[from])
    else FindSkuFrom(skus, xrn, from + 1)
  }

  /**
   * Database.FindSKU: the first SKU whose XRN equals the argument exactly;
   * otherwise an error naming the XRN.
   */
  function FindSku(skus: seq<Sku>, xrn: string): (r: Result<Sku>)
    ensures r.Ok? ==> exists i :: 0 <= i < |skus| && skus[i] == r.value && r.value.xrn == xrn &&
                                 forall j :: 0 <= j < i ==> skus[j].xrn != xrn
    ensures r.Err? <==> forall i :: 0 <= i < |skus| ==> skus[i].xrn != xrn
    ensures r.Err? ==> r == Err(SkuNotFound(xrn))
  {
    FindSkuFrom(skus, xrn, 0)
  }

  /** The copy of an SKU handed to catalog browsers: context and download URL blanked. */
  function Redacted(s: Sku): Sku
  {
    s.(context := "", downloadUrl := "")
  }

  class Database {
    var users: seq<User>
    var skus: seq<Sku>

    /**
     * NewDatabase: one seed user, test@example.com, whose id (a UUID) and
     * bcrypt digest of "test1234" are generated outside the model; no SKUs.
     */
    constructor (seedId: string, seedDigest: seq<Byte>)
      ensures users == [User(seedId, "test@example.com", EncryptPassword(seedDigest))]
      ensures skus == []
    {
      users := [User(seedId, "test@example.com", EncryptPassword(seedDigest))];
      skus := [];
    }

    /** Database.SKUs: a new list, same length and order, each entry redacted. */
    method SKUs() returns (r: seq<Sku>)
      ensures |r| == |skus|
      ensures forall i :: 0 <= i < |skus| ==> r[i] == skus[i].(context := "", downloadUrl := "")
    {
      r := [];
      for i := 0 to |skus|
        invariant |r| == i
        invariant forall k :: 0 <= k < i ==> r[k] == Redacted(skus[k])
      {
        r := r + [Redacted(skus[i])];
      }
    }

    /** Database.SetSKUs: the whole snapshot is replaced at once. */
    method SetSKUs(replacement: seq<Sku>)
      modifies this
      ensures skus == replacement
      ensures users == old(users)
    {
      skus := replacement;
    }
  }

  /** The seed user logs in with any capitalisation of its e-mail exactly when bcrypt accepts the password. */
  lemma SeedUserLogin(seedId: string, seedDigest: seq<Byte>, email: string, password: string, bcrypt: BcryptCompare)
    requires Lower(email) == Lower("test@example.com")
    ensures FindUser([User(seedId, "test@example.com", EncryptPassword(seedDigest))], email, password, bcrypt).Ok?
            <==> bcrypt(seedDigest, password)
  {
    StoredHashIsDecodable(password, seedDigest, bcrypt);
    var users := [User(seedId, "test@example.com", EncryptPassword(seedDigest))];
    assert Matches(users[0], email, password, bcrypt) <==> bcrypt(seedDigest, password);
  }
}

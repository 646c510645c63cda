/** The three replacement schemes: consistent random tokens remembered per
    entity, masking, and hashing. Random UUIDs and Python's `hash` enter as
    parameters. */
module Tokens {
  import opened Text

  predicate IsHexDigit(c: char) {
    '0' <= c <= '9' || 'a' <= c <= 'f'
  }

  /** `uuid.uuid4().hex`: 32 lower-case hexadecimal digits. */
  predicate IsUuidHex(h: string) {
    |h| == 32 && forall i :: 0 <= i < 32 ==> IsHexDigit(h[i])
  }

  type UuidHex = h: string | IsUuidHex(h) witness "00000000000000000000000000000000"

  /** The shape of every generated token: "TOKEN_" and eight hex digits. */
  predicate IsToken(t: string) {
    |t| == 14 && t[..6] == "TOKEN_" && forall i :: 6 <= i < 14 ==> IsHexDigit(t[i])
  }

  /** A fresh token from a random UUID: its first eight hex digits. */
  function NewToken(hex: UuidHex): (t: string)
    ensures IsToken(t)
    ensures t[6..] == hex[..8]
  {
    "TOKEN_" + hex[..8]
  }

  /** Two different UUIDs that share their first eight digits yield the same
      token: tokens of different entities are not guaranteed distinct. */
  lemma TokensMayCollide()
    ensures exists h1: UuidHex, h2: UuidHex :: h1 != h2 && NewToken(h1) == NewToken(h2)
  {
    var h1: UuidHex := "00000000000000000000000000000000";
    var h2: UuidHex := "00000000000000000000000000000001";
    assert h1[31] != h2[31];
    assert NewToken(h1) == NewToken(h2) by {
      assert h1[..8] == h2[..8];
    }
  }

  /** The token `get_token` returns for `entity` given the store: the stored
      one, or a new one made from `hex`. */
  function TokenFor(store: map<string, string>, entity: string, hex: UuidHex): (t: string)
    ensures entity in store ==> t == store[entity]
    ensures entity !in store ==> t == NewToken(hex)
  {
    if entity in store then store[entity] else NewToken(hex)
  }

  /** The store after `get_token`: unchanged for a known entity, extended
      with the new token otherwise. */
  function Remember(store: map<string, string>, entity: string, hex: UuidHex): (s: map<string, string>)
    ensures s.Keys == store.Keys + {entity}
    ensures forall e :: e in store ==> s[e] == store[e]
    ensures s[entity] == TokenFor(store, entity, hex)
  {
    if entity in store then store else store[entity := NewToken(hex)]
  }

  predicate StoreValid(store: map<string, string>) {
    forall e :: e in store ==> IsToken(store[e])
  }

  /** A valid store stays valid, every token handed out has the token shape,
      and asking again for the same entity returns the same token whatever
      UUID is drawn next. */
  lemma TokenConsistent(store: map<string, string>, entity: string, hex: UuidHex, next: UuidHex)
    requires StoreValid(store)
    ensures StoreValid(Remember(store, entity, hex))
    ensures IsToken(TokenFor(store, entity, hex))
    ensures TokenFor(Remember(store, entity, hex), entity, next) == TokenFor(store, entity, hex)
    ensures Remember(Remember(store, entity, hex), entity, next) == Remember(store, entity, hex)
  {
  }

  class TokenManager {
    /** Entity to the token first handed out for it. */
    var tokenStore: map<string, string>

    ghost predicate Valid()
      reads this
    {
      StoreValid(tokenStore)
    }

    constructor ()
      ensures tokenStore == map[] && Valid()
    {
      tokenStore := map[];
    }

    /** `get_token(entity)`; `hex` is the UUID drawn should the entity be new. */
    method GetToken(entity: string, hex: UuidHex) returns (token: string)
      requires Valid()
      modifies this
      ensures Valid()
      ensures token == TokenFor(old(tokenStore), entity, hex)
      ensures tokenStore == Remember(old(tokenStore), entity, hex)
      ensures IsToken(token) && tokenStore[entity] == token
    {
      if entity !in tokenStore {
        tokenStore := tokenStore[entity := NewToken(hex)];
      }
      token := tokenStore[entity];
    }
  }

  /** `mask_entity(entity)`: at most two characters become all stars;
      longer entities keep their first and last character and every
      character in between becomes a star. */
  function MaskEntity(entity: string): (r: string)
    ensures |r| == |entity|
    ensures |entity| <= 2 ==> forall i :: 0 <= i < |r| ==> r[i] == '*'
    ensures |entity| > 2 ==>
      && r[0] == entity[0] && r[|r| - 1] == entity[|entity| - 1]
      && forall i :: 0 < i < |r| - 1 ==> r[i] == '*'
  {
    if |entity| <= 2 then Repeat('*', |entity|)
    else [entity[0]] + Repeat('*', |entity| - 2) + [entity[|entity| - 1]]
  }

  /** Masking reveals only the length and, beyond two characters, the two
      end characters: entities agreeing on those get the same mask, and
      masking a mask changes nothing. */
  lemma MaskDeterminedByEnds(a: string, b: string)
    requires |a| == |b|
    requires |a| > 2 ==> a[0] == b[0] && a[|a| - 1] == b[|b| - 1]
    ensures MaskEntity(a) == MaskEntity(b)
    ensures MaskEntity(MaskEntity(a)) == MaskEntity(a)
  {
    var ma, mb := MaskEntity(a), MaskEntity(b);
    assert forall i :: 0 <= i < |ma| ==> ma[i] == mb[i];
    var mma := MaskEntity(ma);
    assert forall i :: 0 <= i < |ma| ==> mma[i] == ma[i];
  }

  const HashModulus: nat := 1000000

  /** `hash_entity(entity)`: "HASH_" and the decimal digits of Python's
      `hash(entity) % 1000000`. Python's `%` with a positive modulus is
      never negative, as is Dafny's. */
  function HashEntity(entity: string, pyHash: string -> int): (r: string)
    ensures |r| >= 6 && r[..5] == "HASH_" && AllDigits(r[5..])
    ensures r[5..] == Decimal(pyHash(entity) % HashModulus)
    ensures ParseDecimal(r[5..]) == pyHash(entity) % HashModulus
  {
    var n := pyHash(entity) % HashModulus;
    ParseDecimalOfDecimal(n);
    assert ("HASH_" + Decimal(n))[5..] == Decimal(n);
    "HASH_" + Decimal(n)
  }

  /** Hash replacements take at most six digits. */
  lemma HashLength(entity: string, pyHash: string -> int)
    ensures |HashEntity(entity, pyHash)| <= 11
  {
    var n := pyHash(entity) % HashModulus;
    assert HashModulus == Pow10(6);
    DecimalLength(n, 6);
    assert HashEntity(entity, pyHash)[5..] == Decimal(n);
  }

  /** Two entities get the same hash replacement exactly when their hashes
      agree modulo 1000000: distinct entities can collide. */
  lemma HashCollision(a: string, b: string, pyHash: string -> int)
    ensures HashEntity(a, pyHash) == HashEntity(b, pyHash) <==> pyHash(a) % HashModulus == pyHash(b) % HashModulus
  {
    var ha, hb := HashEntity(a, pyHash), HashEntity(b, pyHash);
    if ha == hb {
      assert ha[5..] == hb[5..];
    }
    if pyHash(a) % HashModulus == pyHash(b) % HashModulus {
      assert ha == ha[..5] + ha[5..] && hb == hb[..5] + hb[5..];
    }
  }
}

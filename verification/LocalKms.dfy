/** The local KMS: length-prefixed canonical-JSON context in front of a Fernet token. */
module LocalKms {
  import opened Json
  import opened JsonReading
  import opened Options
  import opened Sorting
  import opened Text

  type byte = n: int | 0 <= n < 256
  type Bytes = seq<byte>

  /** A Python dict of strings, as its items in insertion order. */
  type Context = seq<(string, string)>

  /** The cipher, as two functions; each encryption draws a nonce. */
  datatype Fernet = Fernet(encrypt: (nat, Bytes) -> Bytes, decrypt: Bytes -> Option<Bytes>)

  /** What is assumed of it: it decrypts what it encrypted, and nothing at all is no token. */
  ghost predicate Sound(f: Fernet) {
    (forall nonce, m :: f.decrypt(f.encrypt(nonce, m)) == Some(m)) && f.decrypt([]) == None
  }

  datatype Problem = MissingUserId | ContextTooLong | TooShort | ContextMismatch | BadToken | InnerTampered

  datatype Result = Ok(bytes: Bytes) | Raised(why: Problem)

  // ---------------------------------------------------------------- the wire format

  predicate KeyLeq(a: (string, string), b: (string, string)) {
    StrLeq(a.0, b.0)
  }

  function Canonical(ctx: Context): (r: string) {
    Dumps(Obj(StrFields(Sort(ctx, KeyLeq))))
  }

  lemma CanonicalPrints(ctx: Context)
    ensures Printable(Canonical(ctx))
  {
    StrFieldsPrint(Sort(ctx, KeyLeq));
    DumpsPrintable(Obj(StrFields(Sort(ctx, KeyLeq))));
  }

  /** `_serialize_context`: UTF-8 of ASCII text is its code points. */
  function SerializeContext(ctx: Context): (r: Bytes)
    ensures |r| == |Canonical(ctx)|
  {
    CanonicalPrints(ctx);
    var text := Canonical(ctx);
    seq(|text|, i requires 0 <= i < |text| => text[i] as int)
  }

  /** `struct.pack(">I", n)`. */
  function PackLength(n: nat): (r: Bytes)
    requires n < 0x1_0000_0000
  {
    [n / 0x100_0000, n / 0x1_0000 % 0x100, n / 0x100 % 0x100, n % 0x100]
  }

  /** `struct.unpack(">I", b)`. */
  function UnpackLength(b: Bytes): (r: nat)
    requires |b| == 4
  {
    b[0] as int * 0x100_0000 + b[1] as int * 0x1_0000 + b[2] as int * 0x100 + b[3]
  }

  predicate HasUserId(ctx: Context) {
    exists i :: 0 <= i < |ctx| && ctx[i].0 == "user_id"
  }

  function Encrypt(f: Fernet, nonce: nat, plaintext: Bytes, ctx: Context): (r: Result) {
    var ctxBytes := SerializeContext(ctx);
    if !HasUserId(ctx) then Raised(MissingUserId)
    else if |ctxBytes| >= 0x1_0000_0000 then Raised(ContextTooLong)
    else Ok(PackLength(|ctxBytes|) + ctxBytes + f.encrypt(nonce, ctxBytes + [0] + plaintext))
  }

  /** `s[a:b]` with Python's clamping. */
  function Slice(s: Bytes, a: nat, b: nat): (r: Bytes) {
    if a >= |s| || a >= b then [] else if b >= |s| then s[a..] else s[a..b]
  }

  /** `blob.find(b"\x00")`: the first NUL, or the length when there is none. */
  function FindNul(s: Bytes): (i: nat)
    ensures i <= |s| && (i < |s| ==> s[i] == 0) && forall k :: 0 <= k < i ==> s[k] != 0
  {
    if s == [] || s[0] == 0 then 0 else 1 + FindNul(s[1..])
  }

  function Decrypt(f: Fernet, ciphertext: Bytes, ctx: Context): (r: Result) {
    if !HasUserId(ctx) then Raised(MissingUserId)
    else if |ciphertext| < 4 then Raised(TooShort)
    else
      var ctxLen := UnpackLength(ciphertext[..4]);
      var stored := Slice(ciphertext, 4, 4 + ctxLen);
      var token := Slice(ciphertext, 4 + ctxLen, |ciphertext|);
      if stored != SerializeContext(ctx) then Raised(ContextMismatch)
      else
        match f.decrypt(token)
        case None => Raised(BadToken)
        case Some(blob) =>
          var sep := FindNul(blob);
          if sep == |blob| || blob[..sep] != stored then Raised(InnerTampered) else Ok(blob[sep + 1..])
  }

  // ---------------------------------------------------------------- contexts

  ghost predicate DistinctKeys(ctx: Context) {
    forall i, j :: 0 <= i < j < |ctx| ==> ctx[i].0 != ctx[j].0
  }

  /** Python's `==` on dicts: the same items, in any order. */
  ghost predicate SameDict(a: Context, b: Context) {
    forall p :: p in a <==> p in b
  }

  lemma KeyLeqPreorder()
    ensures TotalPreorder(KeyLeq)
  {
    forall a, b ensures KeyLeq(a, b) || KeyLeq(b, a) { StrLeqTotal(a.0, b.0); }
    forall a, b, c | KeyLeq(a, b) && KeyLeq(b, c) ensures KeyLeq(a, c) { StrLeqTransitive(a.0, b.0, c.0); }
  }

  lemma {:induction false} DistinctBag(a: Context, b: Context)
    requires DistinctKeys(a) && DistinctKeys(b) && SameDict(a, b)
    ensures multiset(a) == multiset(b)
  {
    forall p ensures multiset(a)[p] == multiset(b)[p] {
      DistinctCount(a, p);
      DistinctCount(b, p);
    }
  }

  lemma {:induction false} DistinctCount(a: Context, p: (string, string))
    requires DistinctKeys(a)
    ensures multiset(a)[p] == if p in a then 1 else 0
  {
    if a != [] {
      DistinctCount(a[1..], p);
      assert a == [a[0]] + a[1..];
      assert forall k :: 0 <= k < |a[1..]| ==> a[1..][k] == a[k + 1] && a[k + 1] != a[0];
      assert a[0] !in a[1..];
    }
  }

  lemma DistinctNoTies(ctx: Context)
    requires DistinctKeys(ctx)
    ensures NoTies(Sort(ctx, KeyLeq), KeyLeq)
  {
    KeyLeqPreorder();
    var s := Sort(ctx, KeyLeq);
    forall x, y | x in s && y in s && KeyLeq(x, y) && KeyLeq(y, x) ensures x == y {
      StrLeqAntisymmetric(x.0, y.0);
      SortMembers(ctx, KeyLeq, x);
      SortMembers(ctx, KeyLeq, y);
      var i :| 0 <= i < |ctx| && ctx[i] == x;
      var j :| 0 <= j < |ctx| && ctx[j] == y;
    }
  }

  lemma SerializeDeterminesText(a: Context, b: Context)
    requires SerializeContext(a) == SerializeContext(b)
    ensures Canonical(a) == Canonical(b)
  {
    forall i | 0 <= i < |Canonical(a)| ensures Canonical(a)[i] == Canonical(b)[i] {
      assert SerializeContext(a)[i] == SerializeContext(b)[i];
    }
  }

  /** Canonical JSON is canonical: two contexts serialise alike exactly when they are equal as dicts. */
  lemma SerializeInjective(a: Context, b: Context)
    requires DistinctKeys(a) && DistinctKeys(b)
    ensures SerializeContext(a) == SerializeContext(b) <==> SameDict(a, b)
  {
    KeyLeqPreorder();
    SortSpec(a, KeyLeq);
    SortSpec(b, KeyLeq);
    if SameDict(a, b) {
      DistinctBag(a, b);
      DistinctNoTies(a);
      SortedUnique(Sort(a, KeyLeq), Sort(b, KeyLeq), KeyLeq);
    }
    if SerializeContext(a) == SerializeContext(b) {
      SerializeDeterminesText(a, b);
      ObjectInjective(Sort(a, KeyLeq), Sort(b, KeyLeq));
      forall p ensures p in a <==> p in b {
        SortMembers(a, KeyLeq, p);
        SortMembers(b, KeyLeq, p);
      }
    }
  }

  // ---------------------------------------------------------------- the promises

  lemma LengthRoundTrip(n: nat)
    requires n < 0x1_0000_0000
    ensures UnpackLength(PackLength(n)) == n
  {
    assert n / 0x1_0000 == n / 0x100_0000 * 0x100 + n / 0x1_0000 % 0x100;
    assert n / 0x100 == n / 0x1_0000 * 0x100 + n / 0x100 % 0x100;
    assert n == n / 0x100 * 0x100 + n % 0x100;
  }

  lemma LengthUnique(b: Bytes)
    requires |b| == 4
    ensures UnpackLength(b) < 0x1_0000_0000 && PackLength(UnpackLength(b)) == b
  {
    var n := UnpackLength(b);
    assert n / 0x100_0000 == b[0];
    assert n / 0x1_0000 == b[0] as int * 0x100 + b[1];
    assert n / 0x100 == b[0] as int * 0x1_0000 + b[1] as int * 0x100 + b[2];
    assert PackLength(n)[0] == b[0] && PackLength(n)[1] == b[1] && PackLength(n)[2] == b[2] && PackLength(n)[3] == b[3];
  }

  lemma ContextHasNoNul(ctx: Context)
    ensures forall k :: 0 <= k < |SerializeContext(ctx)| ==> SerializeContext(ctx)[k] != 0
  {
    CanonicalPrints(ctx);
  }

  lemma NulAt(a: Bytes, b: Bytes)
    requires forall k :: 0 <= k < |a| ==> a[k] != 0
    ensures FindNul(a + [0] + b) == |a|
  {
    var s := a + [0] + b;
    assert s[|a|] == 0 && forall k :: 0 <= k < |a| ==> s[k] == a[k];
  }

  /** What a token's contents are cut into. */
  lemma {:induction false} BlobReads(ctx: Context, plaintext: Bytes)
    ensures var (ctxBytes, blob) := (SerializeContext(ctx), SerializeContext(ctx) + [0] + plaintext);
            && FindNul(blob) == |ctxBytes| < |blob|
            && blob[..|ctxBytes|] == ctxBytes && blob[|ctxBytes| + 1..] == plaintext
  {
    ContextHasNoNul(ctx);
    NulAt(SerializeContext(ctx), plaintext);
  }

  /** A record with this header: its context and its token are read back. */
  lemma HeaderReads(ctxBytes: Bytes, token: Bytes)
    requires |ctxBytes| < 0x1_0000_0000
    ensures var c := PackLength(|ctxBytes|) + ctxBytes + token;
            && |c| >= 4 && UnpackLength(c[..4]) == |ctxBytes|
            && Slice(c, 4, 4 + |ctxBytes|) == ctxBytes && Slice(c, 4 + |ctxBytes|, |c|) == token
  {
    var c := PackLength(|ctxBytes|) + ctxBytes + token;
    LengthRoundTrip(|ctxBytes|);
    assert c[..4] == PackLength(|ctxBytes|);
    assert c[4..] == ctxBytes + token;
  }

  /**
   * Decryption accepts exactly the records made of this context's header and a token for this context: the
   * plaintext may hold anything, NUL bytes included.
   */
  lemma {:induction false} AcceptsExactly(f: Fernet, ciphertext: Bytes, ctx: Context, plaintext: Bytes)
    requires Sound(f) && HasUserId(ctx) && |SerializeContext(ctx)| < 0x1_0000_0000
    ensures var ctxBytes := SerializeContext(ctx);
            Decrypt(f, ciphertext, ctx) == Ok(plaintext) <==>
              && |ciphertext| >= 4 + |ctxBytes|
              && ciphertext[..4 + |ctxBytes|] == PackLength(|ctxBytes|) + ctxBytes
              && f.decrypt(ciphertext[4 + |ctxBytes|..]) == Some(ctxBytes + [0] + plaintext)
  {
    var ctxBytes := SerializeContext(ctx);
    BlobReads(ctx, plaintext);
    var n := 4 + |ctxBytes|;
    if |ciphertext| >= n && ciphertext[..n] == PackLength(|ctxBytes|) + ctxBytes {
      HeaderReads(ctxBytes, ciphertext[n..]);
      assert ciphertext == PackLength(|ctxBytes|) + ctxBytes + ciphertext[n..];
    }
    if Decrypt(f, ciphertext, ctx) == Ok(plaintext) {
      DecryptedShape(f, ciphertext, ctx, plaintext);
    }
  }

  lemma DecryptedShape(f: Fernet, ciphertext: Bytes, ctx: Context, plaintext: Bytes)
    requires Sound(f) && HasUserId(ctx) && Decrypt(f, ciphertext, ctx) == Ok(plaintext)
    ensures var ctxBytes := SerializeContext(ctx);
            && |ctxBytes| < 0x1_0000_0000 && |ciphertext| >= 4 + |ctxBytes|
            && ciphertext[..4 + |ctxBytes|] == PackLength(|ctxBytes|) + ctxBytes
            && f.decrypt(ciphertext[4 + |ctxBytes|..]) == Some(ctxBytes + [0] + plaintext)
  {
    var ctxBytes, ctxLen := SerializeContext(ctx), UnpackLength(ciphertext[..4]);
    var n := 4 + ctxLen;
    LengthUnique(ciphertext[..4]);
    var token := Slice(ciphertext, n, |ciphertext|);
    assert token != [] && |ciphertext| > n && token == ciphertext[n..];
    assert ctxBytes == ciphertext[4..n] && |ctxBytes| == ctxLen;
    assert ciphertext[..n] == ciphertext[..4] + ciphertext[4..n];
    var blob := f.decrypt(token).value;
    var sep := FindNul(blob);
    assert blob == blob[..sep] + [blob[sep]] + blob[sep + 1..];
  }

  /** A record for `ctx`, opened under another context. */
  lemma {:induction false} OpensRecord(f: Fernet, token: Bytes, plaintext: Bytes, ctx: Context, other: Context)
    requires HasUserId(other) && |SerializeContext(ctx)| < 0x1_0000_0000
    requires f.decrypt(token) == Some(SerializeContext(ctx) + [0] + plaintext)
    ensures Decrypt(f, PackLength(|SerializeContext(ctx)|) + SerializeContext(ctx) + token, other) ==
            if SerializeContext(ctx) == SerializeContext(other) then Ok(plaintext) else Raised(ContextMismatch)
  {
    HeaderReads(SerializeContext(ctx), token);
    BlobReads(ctx, plaintext);
  }

  /** Encryption then decryption: equal contexts return the plaintext, any other context is rejected. */
  lemma {:induction false} RoundTrip(f: Fernet, nonce: nat, plaintext: Bytes, ctx: Context, other: Context)
    requires Sound(f) && DistinctKeys(ctx) && DistinctKeys(other) && HasUserId(other)
    requires HasUserId(ctx) && |SerializeContext(ctx)| < 0x1_0000_0000
    ensures Encrypt(f, nonce, plaintext, ctx).Ok?
    ensures Decrypt(f, Encrypt(f, nonce, plaintext, ctx).bytes, other) ==
            if SameDict(ctx, other) then Ok(plaintext) else Raised(ContextMismatch)
  {
    SerializeInjective(ctx, other);
    OpensRecord(f, f.encrypt(nonce, SerializeContext(ctx) + [0] + plaintext), plaintext, ctx, other);
  }

  /** A token moved behind the header of a different context is accepted under no context at all. */
  lemma SwappedHeaderRejected(f: Fernet, nonce: nat, plaintext: Bytes, ctx: Context, other: Context, any: Context)
    requires Sound(f) && DistinctKeys(ctx) && DistinctKeys(other) && !SameDict(ctx, other)
    requires |SerializeContext(other)| < 0x1_0000_0000
    ensures var token := f.encrypt(nonce, SerializeContext(ctx) + [0] + plaintext);
            var forged := PackLength(|SerializeContext(other)|) + SerializeContext(other) + token;
            Decrypt(f, forged, any).Raised?
  {
    var ctxBytes, otherBytes := SerializeContext(ctx), SerializeContext(other);
    HeaderReads(otherBytes, f.encrypt(nonce, ctxBytes + [0] + plaintext));
    SerializeInjective(ctx, other);
    BlobReads(ctx, plaintext);
  }
}

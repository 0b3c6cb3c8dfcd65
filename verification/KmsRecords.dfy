/** What a record of the local KMS holds, byte by byte. */
module KmsRecords {
  import opened Dictionary
  import opened Json
  import opened JsonReading
  import opened LocalKms
  import opened Options
  import opened Sorting

  /** Two dumped items: the key comes first in a dictionary. */
  ghost predicate KeysAscend(items: Context) {
    forall i, j :: 0 <= i < j < |items| ==> items[i].0 == items[j].0 || Precedes(items[i].0, items[j].0)
  }

  /** The bytes are the ASCII codes of the text. */
  predicate AsciiOf(b: Bytes, text: string) {
    |b| == |text| && forall i :: 0 <= i < |b| ==> b[i] == text[i] as int
  }

  /** `b` is the compact JSON of the context's items, by their keys. */
  ghost predicate Names(b: Bytes, ctx: Context, text: string, items: Context) {
    && AsciiOf(b, text) && Loads(text) == Some(Obj(StrFields(items)))
    && multiset(items) == multiset(ctx) && KeysAscend(items)
  }

  lemma {:induction false} StrFieldsNumeric(pairs: seq<(string, string)>)
    ensures Numeric(Obj(StrFields(pairs)))
  {
    StrFieldsAre(pairs);
  }

  lemma {:induction false} SerializedNames(ctx: Context) returns (text: string, items: Context)
    ensures Names(SerializeContext(ctx), ctx, text, items)
  {
    KeyLeqPreorder();
    SortSpec(ctx, KeyLeq);
    items, text := Sort(ctx, KeyLeq), Canonical(ctx);
    StrFieldsNumeric(items);
    LoadsDumps(Obj(StrFields(items)));
    forall i, j | 0 <= i < j < |items| ensures items[i].0 == items[j].0 || Precedes(items[i].0, items[j].0) {
      assert KeyLeq(items[i], items[j]);
      LeqIsDictionaryOrder(items[i].0, items[j].0);
    }
  }

  /** The first four bytes, the most significant one first. */
  function Header(b: Bytes): (r: nat)
    requires |b| >= 4
  {
    ((b[0] as int * 256 + b[1] as int) * 256 + b[2] as int) * 256 + b[3]
  }

  /** A record: the length of the context in four bytes, the context, and a token for context, NUL and plaintext. */
  predicate IsRecord(f: Fernet, out: Bytes, ctxBytes: Bytes, plaintext: Bytes) {
    && |out| >= 4 + |ctxBytes| && Header(out) == |ctxBytes| && out[4..4 + |ctxBytes|] == ctxBytes
    && f.decrypt(out[4 + |ctxBytes|..]) == Some(ctxBytes + [0] + plaintext)
  }

  lemma {:induction false} PackedLength(n: nat)
    requires n < 0x1_0000_0000
    ensures Header(PackLength(n)) == n
  {
    LengthRoundTrip(n);
  }

  lemma {:induction false} PartsOf(header: Bytes, ctxBytes: Bytes, token: Bytes)
    requires |header| == 4
    ensures var out := header + ctxBytes + token;
            && out[..4] == header && out[4..4 + |ctxBytes|] == ctxBytes && out[4 + |ctxBytes|..] == token
  {
  }

  /**
   * Encryption asks for a user id and a context of less than four gigabytes, and then makes a record for the
   * context, which is spelled as compact JSON by its keys.
   */
  lemma {:induction false} EncryptedIs(f: Fernet, nonce: nat, plaintext: Bytes, ctx: Context)
    returns (ctxBytes: Bytes, text: string, items: Context)
    requires Sound(f)
    ensures Names(ctxBytes, ctx, text, items)
    ensures match Encrypt(f, nonce, plaintext, ctx)
            case Raised(why) =>
              if forall p :: p in ctx ==> p.0 != "user_id" then why == MissingUserId
              else |ctxBytes| >= 0x1_0000_0000 && why == ContextTooLong
            case Ok(out) =>
              && (exists p :: p in ctx && p.0 == "user_id") && |ctxBytes| < 0x1_0000_0000
              && IsRecord(f, out, ctxBytes, plaintext)
  {
    ctxBytes := SerializeContext(ctx);
    text, items := SerializedNames(ctx);
    if HasUserId(ctx) {
      var i :| 0 <= i < |ctx| && ctx[i].0 == "user_id";
      assert ctx[i] in ctx;
      if |ctxBytes| < 0x1_0000_0000 {
        var token := f.encrypt(nonce, ctxBytes + [0] + plaintext);
        PackedLength(|ctxBytes|);
        PartsOf(PackLength(|ctxBytes|), ctxBytes, token);
        assert Header(PackLength(|ctxBytes|) + ctxBytes + token) == Header(PackLength(|ctxBytes|));
      }
    }
  }

  function Min(a: nat, b: nat): (r: nat) {
    if a < b then a else b
  }

  /** The context a record claims, or as much of it as there is. */
  function Claimed(c: Bytes): (r: Bytes)
    requires |c| >= 4
  {
    c[4..Min(4 + Header(c), |c|)]
  }

  function TokenOf(c: Bytes): (r: Bytes)
    requires |c| >= 4
  {
    c[Min(4 + Header(c), |c|)..]
  }

  lemma {:induction false} DecryptLooksAt(c: Bytes)
    requires |c| >= 4
    ensures UnpackLength(c[..4]) == Header(c)
    ensures Slice(c, 4, 4 + Header(c)) == Claimed(c) && Slice(c, 4 + Header(c), |c|) == TokenOf(c)
  {
  }

  lemma {:induction false} BlobParts(blob: Bytes, ctxBytes: Bytes)
    requires forall k :: 0 <= k < |ctxBytes| ==> ctxBytes[k] != 0
    ensures FindNul(blob) < |blob| && blob[..FindNul(blob)] == ctxBytes <==> ctxBytes + [0] <= blob
    ensures ctxBytes + [0] <= blob ==>
              FindNul(blob) == |ctxBytes| && blob == ctxBytes + [0] + blob[FindNul(blob) + 1..]
  {
    if ctxBytes + [0] <= blob {
      var rest := blob[|ctxBytes| + 1..];
      assert blob == ctxBytes + [0] + rest;
      NulAt(ctxBytes, rest);
    }
    var n := FindNul(blob);
    if n < |blob| && blob[..n] == ctxBytes {
      assert ctxBytes + [0] == blob[..n + 1];
    }
  }

  /** What decryption answers under the context `ctxBytes`; `named` tells whether that has a user id. */
  predicate Decides(f: Fernet, c: Bytes, ctxBytes: Bytes, named: bool, answer: Result) {
    if !named then answer == Raised(MissingUserId)
    else if |c| < 4 then answer == Raised(TooShort)
    else if Claimed(c) != ctxBytes then answer == Raised(ContextMismatch)
    else
      match f.decrypt(TokenOf(c))
      case None => answer == Raised(BadToken)
      case Some(blob) =>
        if ctxBytes + [0] <= blob then answer.Ok? && blob == ctxBytes + [0] + answer.bytes
        else answer == Raised(InnerTampered)
  }

  /**
   * Decryption compares the context in front before it looks at the token, and takes the plaintext of a token for
   * this context whole.
   */
  lemma {:induction false} DecryptedIs(f: Fernet, c: Bytes, ctx: Context)
    returns (ctxBytes: Bytes, text: string, items: Context)
    ensures Names(ctxBytes, ctx, text, items)
    ensures Decides(f, c, ctxBytes, exists p :: p in ctx && p.0 == "user_id", Decrypt(f, c, ctx))
  {
    ctxBytes := SerializeContext(ctx);
    text, items := SerializedNames(ctx);
    ContextHasNoNul(ctx);
    if HasUserId(ctx) {
      var i :| 0 <= i < |ctx| && ctx[i].0 == "user_id";
      assert ctx[i] in ctx;
    }
    if |c| >= 4 {
      DecryptLooksAt(c);
      if f.decrypt(TokenOf(c)).Some? { BlobParts(f.decrypt(TokenOf(c)).value, ctxBytes); }
    }
  }
}

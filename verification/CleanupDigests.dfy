// scripts/lib/workspace-agent-handshake.ts:161-225: the byte strings hashed for a cleanup page and for
// the authorization of a cleanup.
module CleanupDigests {
  import opened Prelude
  import opened Bytes

  // Texts are given as their UTF-8 bytes.
  datatype Identity = Identity(device: bytes, inode: bytes, kind: byte)

  datatype Page = Page(resourceId: bytes, rootHandle: bytes, relativePath: bytes, quarantineName: bytes,
                       identity: Option<Identity>, rootIdentity: Identity, parentIdentity: Identity)

  datatype Authorization = Authorization(requestId: bytes, operationId: bytes, planDigest: bytes, pageDigest: bytes,
                                         proofDigest: bytes, deadlineUnixMs: nat, platform: bytes)

  // The text's length fits four bytes; otherwise `writeUInt32BE` throws.
  predicate Short(text: bytes) {
    |text| < 0x1_0000_0000
  }

  predicate ShortIdentity(id: Identity) {
    Short(id.device) && Short(id.inode)
  }

  predicate ShortPage(p: Page) {
    && Short(p.resourceId) && Short(p.rootHandle) && Short(p.relativePath) && Short(p.quarantineName)
    && (p.identity.Some? ==> ShortIdentity(p.identity.value))
    && ShortIdentity(p.rootIdentity) && ShortIdentity(p.parentIdentity)
  }

  predicate InRange(a: Authorization) {
    Short(a.requestId) && Short(a.operationId) && a.deadlineUnixMs < 0x1_0000_0000_0000_0000 && Short(a.platform)
  }

  function Ascii(s: string): (b: bytes)
    ensures |b| == |s|
  {
    seq(|s|, i requires 0 <= i < |s| => s[i] as int % 256)
  }

  const PAGE_TAG: string := "bigbud.resource-cleanup.page.v1\0"
  const AUTHORIZATION_TAG: string := "bigbud.resource-cleanup.authorization.v1\0"

  // --- The hashed bytes ---

  function StringBytes(text: bytes): bytes
    requires Short(text)
  {
    Be32(|text|) + text
  }

  function IdentityBytes(id: Option<Identity>): bytes
    requires id.Some? ==> ShortIdentity(id.value)
  {
    match id
    case None => [0]
    case Some(i) => [1] + (StringBytes(i.device) + (StringBytes(i.inode) + [i.kind]))
  }

  function Be64(v: nat): (b: bytes)
    requires v < 0x1_0000_0000_0000_0000
    ensures |b| == 8 && U32BE(b) * 0x1_0000_0000 + U32BE(b[4..]) == v
  {
    var high, low := Be32(v / 0x1_0000_0000), Be32(v % 0x1_0000_0000);
    assert (high + low)[4..] == low;
    high + low
  }

  // The part of a page's bytes that holds its identities.
  function IdentitiesBytes(p: Page): bytes
    requires ShortPage(p)
  {
    IdentityBytes(p.identity) + (IdentityBytes(Some(p.rootIdentity)) + (IdentityBytes(Some(p.parentIdentity)) + [1]))
  }

  function PageBytes(p: Page): bytes
    requires ShortPage(p)
  {
    Ascii(PAGE_TAG)
    + (StringBytes(p.resourceId)
    + (StringBytes(p.rootHandle)
    + (StringBytes(p.relativePath)
    + (StringBytes(p.quarantineName)
    + IdentitiesBytes(p)))))
  }

  function AuthorizationBytes(a: Authorization): bytes
    requires InRange(a)
  {
    Ascii(AUTHORIZATION_TAG)
    + (StringBytes(a.requestId)
    + (StringBytes(a.operationId)
    + (a.planDigest
    + (a.pageDigest
    + (a.proofDigest
    + (Be64(a.deadlineUnixMs)
    + StringBytes(a.platform)))))))
  }

  // --- Hashing ---

  // `createHash`: what was fed to it so far.
  class Hash {
    var fed: bytes

    constructor (tag: string)
      ensures fed == Ascii(tag)
    {
      fed := Ascii(tag);
    }

    method Update(b: bytes)
      modifies this
      ensures fed == old(fed) + b
    {
      fed := fed + b;
    }

    method DigestString(text: bytes)
      requires Short(text)
      modifies this
      ensures fed == old(fed) + StringBytes(text)
    {
      Update(Be32(|text|));
      Update(text);
    }

    method DigestIdentity(id: Option<Identity>)
      requires id.Some? ==> ShortIdentity(id.value)
      modifies this
      ensures fed == old(fed) + IdentityBytes(id)
    {
      Update([if id.Some? then 1 else 0]);
      if id.None? {
        return;
      }
      DigestString(id.value.device);
      DigestString(id.value.inode);
      Update([id.value.kind]);
    }
  }

  lemma Shift(fed: bytes, part: bytes, rest: bytes)
    ensures (fed + part) + rest == fed + (part + rest)
  {
  }

  method DigestIdentities(hash: Hash, p: Page)
    requires ShortPage(p)
    modifies hash
    ensures hash.fed == old(hash.fed) + IdentitiesBytes(p)
  {
    hide IdentityBytes;
    ghost var fed := hash.fed;
    var own, root, parent := p.identity, Some(p.rootIdentity), Some(p.parentIdentity);
    hash.DigestIdentity(own);
    hash.DigestIdentity(root);
    hash.DigestIdentity(parent);
    hash.Update([1]);
    Shift(fed + IdentityBytes(own) + IdentityBytes(root), IdentityBytes(parent), [1]);
    Shift(fed + IdentityBytes(own), IdentityBytes(root), IdentityBytes(parent) + [1]);
    Shift(fed, IdentityBytes(own), IdentityBytes(root) + (IdentityBytes(parent) + [1]));
  }

  // None where a length or the deadline is out of range, and the source throws.
  method CleanupPageDigest(p: Page, sha256: bytes -> bytes) returns (digest: Option<bytes>)
    ensures digest == if ShortPage(p) then Some(sha256(PageBytes(p))) else None
  {
    hide StringBytes, IdentitiesBytes, Ascii;
    if !ShortPage(p) {
      return None;
    }
    var hash := new Hash(PAGE_TAG);
    hash.DigestString(p.resourceId);
    hash.DigestString(p.rootHandle);
    hash.DigestString(p.relativePath);
    hash.DigestString(p.quarantineName);
    DigestIdentities(hash, p);
    digest := Some(sha256(hash.fed));
    assert hash.fed == PageBytes(p) by {
      var t, s1, s2 := Ascii(PAGE_TAG), StringBytes(p.resourceId), StringBytes(p.rootHandle);
      var s3, s4, ids := StringBytes(p.relativePath), StringBytes(p.quarantineName), IdentitiesBytes(p);
      Shift(t + s1 + s2 + s3, s4, ids);
      Shift(t + s1 + s2, s3, s4 + ids);
      Shift(t + s1, s2, s3 + (s4 + ids));
      Shift(t, s1, s2 + (s3 + (s4 + ids)));
    }
  }

  method CleanupAuthorization(a: Authorization, sha256: bytes -> bytes) returns (digest: Option<bytes>)
    ensures digest == if InRange(a) then Some(sha256(AuthorizationBytes(a))) else None
  {
    hide StringBytes, Be64, Ascii;
    if !InRange(a) {
      return None;
    }
    var hash := new Hash(AUTHORIZATION_TAG);
    hash.DigestString(a.requestId);
    hash.DigestString(a.operationId);
    hash.Update(a.planDigest);
    hash.Update(a.pageDigest);
    hash.Update(a.proofDigest);
    hash.Update(Be64(a.deadlineUnixMs));
    hash.DigestString(a.platform);
    digest := Some(sha256(hash.fed));
    assert hash.fed == AuthorizationBytes(a) by {
      var t, s1, s2 := Ascii(AUTHORIZATION_TAG), StringBytes(a.requestId), StringBytes(a.operationId);
      var d, s3 := Be64(a.deadlineUnixMs), StringBytes(a.platform);
      Shift(t + s1 + s2 + a.planDigest + a.pageDigest + a.proofDigest, d, s3);
      Shift(t + s1 + s2 + a.planDigest + a.pageDigest, a.proofDigest, d + s3);
      Shift(t + s1 + s2 + a.planDigest, a.pageDigest, a.proofDigest + (d + s3));
      Shift(t + s1 + s2, a.planDigest, a.pageDigest + (a.proofDigest + (d + s3)));
      Shift(t + s1, s2, a.planDigest + (a.pageDigest + (a.proofDigest + (d + s3))));
      Shift(t, s1, s2 + (a.planDigest + (a.pageDigest + (a.proofDigest + (d + s3)))));
    }
  }

  // --- Equal bytes mean equal fields ---

  lemma SameSplit(a: bytes, x: bytes, b: bytes, y: bytes)
    requires |a| == |b| && a + x == b + y
    ensures a == b && x == y
  {
    assert (a + x)[..|a|] == a && (b + y)[..|b|] == b;
    assert (a + x)[|a|..] == x && (b + y)[|b|..] == y;
  }

  lemma SameString(a: bytes, x: bytes, b: bytes, y: bytes)
    requires Short(a) && Short(b) && StringBytes(a) + x == StringBytes(b) + y
    ensures a == b && x == y
  {
    hide Join32, Be32;
    assert StringBytes(a) + x == Be32(|a|) + (a + x);
    assert StringBytes(b) + y == Be32(|b|) + (b + y);
    SameSplit(Be32(|a|), a + x, Be32(|b|), b + y);
    assert |a| == U32BE(Be32(|a|)) == U32BE(Be32(|b|)) == |b|;
    SameSplit(a, x, b, y);
  }

  lemma IdentityBytesThen(i: Identity, x: bytes)
    requires ShortIdentity(i)
    ensures IdentityBytes(Some(i)) + x == [1] + (StringBytes(i.device) + (StringBytes(i.inode) + ([i.kind] + x)))
  {
    hide StringBytes;
    var d, n := StringBytes(i.device), StringBytes(i.inode);
    Shift([1], d + (n + [i.kind]), x);
    Shift(d, n + [i.kind], x);
    Shift(n, [i.kind], x);
  }

  lemma SameIdentity(a: Option<Identity>, x: bytes, b: Option<Identity>, y: bytes)
    requires (a.Some? ==> ShortIdentity(a.value)) && (b.Some? ==> ShortIdentity(b.value))
    requires IdentityBytes(a) + x == IdentityBytes(b) + y
    ensures a == b && x == y
  {
    hide StringBytes;
    assert (IdentityBytes(a) + x)[0] == IdentityBytes(a)[0] && (IdentityBytes(b) + y)[0] == IdentityBytes(b)[0];
    if a.None? {
      SameSplit([0], x, [0], y);
    } else {
      SameSomeIdentity(a.value, x, b.value, y);
    }
  }

  lemma SameSomeIdentity(i: Identity, x: bytes, j: Identity, y: bytes)
    requires ShortIdentity(i) && ShortIdentity(j) && IdentityBytes(Some(i)) + x == IdentityBytes(Some(j)) + y
    ensures i == j && x == y
  {
    hide StringBytes, IdentityBytes;
    var x2, y2 := StringBytes(i.inode) + ([i.kind] + x), StringBytes(j.inode) + ([j.kind] + y);
    IdentityBytesThen(i, x);
    IdentityBytesThen(j, y);
    SameSplit([1], StringBytes(i.device) + x2, [1], StringBytes(j.device) + y2);
    SameString(i.device, x2, j.device, y2);
    SameString(i.inode, [i.kind] + x, j.inode, [j.kind] + y);
    SameSplit([i.kind], x, [j.kind], y);
  }

  lemma SameIdentities(p: Page, q: Page)
    requires ShortPage(p) && ShortPage(q) && IdentitiesBytes(p) == IdentitiesBytes(q)
    ensures p.identity == q.identity && p.rootIdentity == q.rootIdentity && p.parentIdentity == q.parentIdentity
  {
    hide IdentityBytes;
    SameIdentity(p.identity, IdentityBytes(Some(p.rootIdentity)) + (IdentityBytes(Some(p.parentIdentity)) + [1]),
                 q.identity, IdentityBytes(Some(q.rootIdentity)) + (IdentityBytes(Some(q.parentIdentity)) + [1]));
    SameIdentity(Some(p.rootIdentity), IdentityBytes(Some(p.parentIdentity)) + [1],
                 Some(q.rootIdentity), IdentityBytes(Some(q.parentIdentity)) + [1]);
    SameIdentity(Some(p.parentIdentity), [1], Some(q.parentIdentity), [1]);
  }

  function TextsBytes(texts: seq<bytes>, last: bytes): bytes
    requires forall t :: t in texts ==> Short(t)
  {
    if texts == [] then last else StringBytes(texts[0]) + TextsBytes(texts[1..], last)
  }

  lemma {:induction false} SameTexts(a: seq<bytes>, x: bytes, b: seq<bytes>, y: bytes)
    requires |a| == |b| && (forall t :: t in a + b ==> Short(t)) && TextsBytes(a, x) == TextsBytes(b, y)
    ensures a == b && x == y
  {
    hide StringBytes;
    if a != [] {
      SameString(a[0], TextsBytes(a[1..], x), b[0], TextsBytes(b[1..], y));
      SameTexts(a[1..], x, b[1..], y);
      assert a == [a[0]] + a[1..] && b == [b[0]] + b[1..];
    }
  }

  // Two pages with the same hashed bytes are the same page.
  lemma PageBytesInjective(p: Page, q: Page)
    requires ShortPage(p) && ShortPage(q) && PageBytes(p) == PageBytes(q)
    ensures p == q
  {
    hide StringBytes, IdentityBytes;
    var a := [p.resourceId, p.rootHandle, p.relativePath, p.quarantineName];
    var b := [q.resourceId, q.rootHandle, q.relativePath, q.quarantineName];
    PageBytesAre(p);
    PageBytesAre(q);
    SameSplit(Ascii(PAGE_TAG), TextsBytes(a, IdentitiesBytes(p)), Ascii(PAGE_TAG), TextsBytes(b, IdentitiesBytes(q)));
    SameTexts(a, IdentitiesBytes(p), b, IdentitiesBytes(q));
    SameIdentities(p, q);
    assert a[0] == b[0] && a[1] == b[1] && a[2] == b[2] && a[3] == b[3];
  }

  lemma PageBytesAre(p: Page)
    requires ShortPage(p)
    ensures PageBytes(p)
         == Ascii(PAGE_TAG)
            + TextsBytes([p.resourceId, p.rootHandle, p.relativePath, p.quarantineName], IdentitiesBytes(p))
  {
    hide StringBytes, IdentityBytes;
    var r := IdentitiesBytes(p);
    assert TextsBytes([p.quarantineName], r) == StringBytes(p.quarantineName) + r;
    assert TextsBytes([p.relativePath, p.quarantineName], r)
        == StringBytes(p.relativePath) + (StringBytes(p.quarantineName) + r);
    assert TextsBytes([p.rootHandle, p.relativePath, p.quarantineName], r)
        == StringBytes(p.rootHandle) + (StringBytes(p.relativePath) + (StringBytes(p.quarantineName) + r));
  }

  // Two authorizations with the same hashed bytes are the same, given digests of equal lengths.
  lemma AuthorizationBytesInjective(a: Authorization, b: Authorization)
    requires InRange(a) && InRange(b) && AuthorizationBytes(a) == AuthorizationBytes(b)
    requires |a.planDigest| == |b.planDigest| && |a.pageDigest| == |b.pageDigest| && |a.proofDigest| == |b.proofDigest|
    ensures a == b
  {
    hide StringBytes, Be64;
    var x3, y3 := Be64(a.deadlineUnixMs) + StringBytes(a.platform), Be64(b.deadlineUnixMs) + StringBytes(b.platform);
    var x2, y2 := a.pageDigest + (a.proofDigest + x3), b.pageDigest + (b.proofDigest + y3);
    var x1, y1 := StringBytes(a.operationId) + (a.planDigest + x2), StringBytes(b.operationId) + (b.planDigest + y2);
    var tag := Ascii(AUTHORIZATION_TAG);
    SameSplit(tag, StringBytes(a.requestId) + x1, tag, StringBytes(b.requestId) + y1);
    SameString(a.requestId, x1, b.requestId, y1);
    SameString(a.operationId, a.planDigest + x2, b.operationId, b.planDigest + y2);
    SameSplit(a.planDigest, x2, b.planDigest, y2);
    SameSplit(a.pageDigest, a.proofDigest + x3, b.pageDigest, b.proofDigest + y3);
    SameSplit(a.proofDigest, x3, b.proofDigest, y3);
    SameSplit(Be64(a.deadlineUnixMs), StringBytes(a.platform), Be64(b.deadlineUnixMs), StringBytes(b.platform));
    assert StringBytes(a.platform) + [] == StringBytes(b.platform) + [];
    SameString(a.platform, [], b.platform, []);
  }

  // Digests have no length prefix: with lengths that vary, two authorizations can share their bytes.
  lemma DigestLengthsMatter(a: Authorization, b: Authorization)
    requires a == Authorization([], [], [7], [], [], 0, []) && b == Authorization([], [], [], [7], [], 0, [])
    ensures a != b && InRange(a) && InRange(b) && AuthorizationBytes(a) == AuthorizationBytes(b)
  {
    hide StringBytes, Be64, Ascii;
    var rest := Be64(0) + StringBytes([]);
    EmptyFirst(rest);
    EmptyFirst([7] + rest);
  }

  lemma EmptyFirst(rest: bytes)
    ensures [] + rest == rest
  {
  }

  // A page and an authorization never share theirs.
  lemma TagsSeparate(p: Page, a: Authorization)
    requires ShortPage(p) && InRange(a)
    ensures PageBytes(p) != AuthorizationBytes(a)
  {
    assert PageBytes(p)[24] == 'p' as int && AuthorizationBytes(a)[24] == 'a' as int by {
      assert PAGE_TAG[24] == 'p' && AUTHORIZATION_TAG[24] == 'a';
    }
  }
}

// scripts/lib/workspace-agent-handshake.ts:161-225: a reader of the hashed bytes, field after field in the order in
// which they are fed to the hash.
module CleanupReading {
  import opened Prelude
  import opened Bytes
  import opened CleanupDigests

  // A length in four bytes, highest first, and as many bytes.
  function TakeText(b: bytes): Option<(bytes, bytes)> {
    if |b| < 4 || |b| < 4 + U32BE(b) then None else Some((b[4..4 + U32BE(b)], b[4 + U32BE(b)..]))
  }

  function Take(b: bytes, n: nat): Option<(bytes, bytes)> {
    if |b| < n then None else Some((b[..n], b[n..]))
  }

  // A byte that says whether there is an identity, and then its device, its inode and its kind.
  function TakeIdentity(b: bytes): Option<(Option<Identity>, bytes)> {
    if b == [] || b[0] > 1 then None
    else if b[0] == 0 then Some((None, b[1..]))
    else match TakeText(b[1..])
      case None => None
      case Some((device, more)) =>
        match TakeText(more)
        case None => None
        case Some((inode, rest)) =>
          if rest == [] then None else Some((Some(Identity(device, inode, rest[0])), rest[1..]))
  }

  // --- Pages ---

  function ReadIdentities(b: bytes): Option<(Option<Identity>, Identity, Identity)> {
    match TakeIdentity(b)
    case None => None
    case Some((own, b1)) =>
      match TakeIdentity(b1)
      case None => None
      case Some((root, b2)) =>
        match TakeIdentity(b2)
        case None => None
        case Some((parent, end)) =>
          if root.None? || parent.None? || end != [1] then None else Some((own, root.value, parent.value))
  }

  // n texts, one after the other.
  function TakeTexts(b: bytes, n: nat): Option<(seq<bytes>, bytes)> {
    if n == 0 then Some(([], b))
    else match TakeText(b)
      case None => None
      case Some((first, more)) =>
        match TakeTexts(more, n - 1) case None => None case Some((texts, rest)) => Some(([first] + texts, rest))
  }

  function ReadPage(b: bytes): Option<Page> {
    var tag := Ascii("bigbud.resource-cleanup.page.v1\0");
    if !(tag <= b) then None
    else match TakeTexts(b[|tag|..], 4)
      case None => None
      case Some((texts, rest)) =>
        match ReadIdentities(rest)
        case None => None
        case Some((own, root, parent)) =>
          if |texts| != 4 then None else Some(Page(texts[0], texts[1], texts[2], texts[3], own, root, parent))
  }

  lemma TakesText(text: bytes, rest: bytes)
    requires Short(text)
    ensures TakeText(StringBytes(text) + rest) == Some((text, rest))
  {
    hide Be32;
    var b, size := StringBytes(text) + rest, Be32(|text|);
    assert b == size + (text + rest);
    SizeInFront(size, text + rest);
    assert (size + (text + rest))[4..] == text + rest;
    assert b[4..4 + |text|] == text && b[4 + |text|..] == rest;
  }

  lemma SizeInFront(size: bytes, rest: bytes)
    requires |size| == 4
    ensures U32BE(size + rest) == U32BE(size)
  {
    hide Join32;
  }

  lemma TakesIdentity(id: Option<Identity>, rest: bytes)
    requires id.Some? ==> ShortIdentity(id.value)
    ensures TakeIdentity(IdentityBytes(id) + rest) == Some((id, rest))
  {
    hide StringBytes, TakeText;
    if id.None? {
      assert ([0] + rest)[1..] == rest;
    } else {
      var i := id.value;
      var more := StringBytes(i.inode) + ([i.kind] + rest);
      IdentityBytesThen(i, rest);
      assert ([1] + (StringBytes(i.device) + more))[1..] == StringBytes(i.device) + more;
      TakesText(i.device, more);
      TakesText(i.inode, [i.kind] + rest);
      assert ([i.kind] + rest)[1..] == rest;
    }
  }

  lemma ReadsIdentities(p: Page)
    requires ShortPage(p)
    ensures ReadIdentities(IdentitiesBytes(p)) == Some((p.identity, p.rootIdentity, p.parentIdentity))
  {
    hide IdentityBytes, TakeIdentity;
    var parent := IdentityBytes(Some(p.parentIdentity)) + [1];
    TakesIdentity(p.identity, IdentityBytes(Some(p.rootIdentity)) + parent);
    TakesIdentity(Some(p.rootIdentity), parent);
    TakesIdentity(Some(p.parentIdentity), [1]);
  }

  lemma {:induction false} TakesTexts(texts: seq<bytes>, last: bytes)
    requires forall t :: t in texts ==> Short(t)
    ensures TakeTexts(TextsBytes(texts, last), |texts|) == Some((texts, last))
    decreases |texts|
  {
    hide StringBytes, TakeText;
    if texts != [] {
      TakesText(texts[0], TextsBytes(texts[1..], last));
      TakesTexts(texts[1..], last);
      assert texts == [texts[0]] + texts[1..];
    }
  }

  // A page is read back from its hashed bytes, every field from its own place.
  lemma ReadsPage(p: Page)
    requires ShortPage(p)
    ensures ReadPage(PageBytes(p)) == Some(p)
  {
    hide IdentitiesBytes, TextsBytes, ReadIdentities, TakeTexts, Ascii;
    var texts, tag := [p.resourceId, p.rootHandle, p.relativePath, p.quarantineName], Ascii(PAGE_TAG);
    PageBytesAre(p);
    TakesTexts(texts, IdentitiesBytes(p));
    ReadsIdentities(p);
    assert (tag + TextsBytes(texts, IdentitiesBytes(p)))[|tag|..] == TextsBytes(texts, IdentitiesBytes(p));
  }

  // --- Authorizations ---

  // The digests' lengths, in the order plan, page, proof.
  datatype Lengths = Lengths(plan: nat, page: nat, proof: nat)

  function ReadAuthorization(b: bytes, n: Lengths): Option<Authorization> {
    var tag := Ascii("bigbud.resource-cleanup.authorization.v1\0");
    if !(tag <= b) then None
    else match TakeTexts(b[|tag|..], 2)
      case None => None
      case Some((ids, b1)) =>
        match ReadDigests(b1, n)
        case None => None
        case Some((plan, page, proof, b2)) =>
          match ReadDeadline(b2)
          case None => None
          case Some((deadline, platform)) =>
            if |ids| != 2 then None else Some(Authorization(ids[0], ids[1], plan, page, proof, deadline, platform))
  }

  function ReadDigests(b: bytes, n: Lengths): Option<(bytes, bytes, bytes, bytes)> {
    if |b| < n.plan + n.page + n.proof then None
    else Some((b[..n.plan], b[n.plan..n.plan + n.page], b[n.plan + n.page..n.plan + n.page + n.proof],
               b[n.plan + n.page + n.proof..]))
  }

  // Eight bytes, highest first, and the platform.
  function ReadDeadline(b: bytes): Option<(nat, bytes)> {
    if |b| < 8 then None
    else match TakeText(b[8..])
      case None => None
      case Some((platform, rest)) =>
        if rest != [] then None else Some((U32BE(b) * 0x1_0000_0000 + U32BE(b[4..]), platform))
  }

  lemma ReadsDigests(plan: bytes, page: bytes, proof: bytes, rest: bytes)
    ensures ReadDigests(plan + (page + (proof + rest)), Lengths(|plan|, |page|, |proof|))
         == Some((plan, page, proof, rest))
  {
    var b, i, j := plan + (page + (proof + rest)), |plan|, |plan| + |page|;
    assert b[..i] == plan && b[i..j] == page;
    assert b[j..j + |proof|] == proof && b[j + |proof|..] == rest;
  }

  lemma ReadsDeadline(deadline: nat, platform: bytes)
    requires deadline < 0x1_0000_0000_0000_0000 && Short(platform)
    ensures ReadDeadline(Be64(deadline) + StringBytes(platform)) == Some((deadline, platform))
  {
    hide Be64, StringBytes, TakeText;
    var d, s := Be64(deadline), StringBytes(platform);
    assert (d + s)[8..] == s == s + [];
    TakesText(platform, []);
    assert (d + s)[4..] == d[4..] + s;
    SizeInFront(d[..4], d[4..] + s);
    SizeInFront(d[..4], d[4..]);
    assert d == d[..4] + d[4..] && d + s == d[..4] + (d[4..] + s);
    SizeInFront(d[4..], s);
  }

  // So is an authorization, by a reader that knows the lengths of the digests.
  lemma ReadsAuthorization(a: Authorization)
    requires InRange(a)
    ensures ReadAuthorization(AuthorizationBytes(a), Lengths(|a.planDigest|, |a.pageDigest|, |a.proofDigest|)) == Some(a)
  {
    hide StringBytes, Be64, TakeTexts, ReadDigests, ReadDeadline, Ascii;
    var tag, end := Ascii(AUTHORIZATION_TAG), Be64(a.deadlineUnixMs) + StringBytes(a.platform);
    var rest := a.planDigest + (a.pageDigest + (a.proofDigest + end));
    var ids := [a.requestId, a.operationId];
    assert TextsBytes(ids, rest) == StringBytes(a.requestId) + (StringBytes(a.operationId) + rest) by {
      assert TextsBytes([a.operationId], rest) == StringBytes(a.operationId) + TextsBytes([], rest);
    }
    assert AuthorizationBytes(a) == tag + TextsBytes(ids, rest);
    assert (tag + TextsBytes(ids, rest))[|tag|..] == TextsBytes(ids, rest);
    TakesTexts(ids, rest);
    ReadsDigests(a.planDigest, a.pageDigest, a.proofDigest, end);
    ReadsDeadline(a.deadlineUnixMs, a.platform);
  }
}

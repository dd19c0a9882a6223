// scripts/merge-mac-update-manifests.ts:185-232: merging two update manifests.
module ManifestMerge {
  import opened Prelude
  import opened Ordering
  import opened M = Manifest
  import Text

  datatype MergeError = DifferentVersions | ConflictingFile | ConflictingExtra

  // --- Files ---

  // Two entries for one URL agree.
  predicate Consistent(files: seq<File>) {
    forall i, j :: 0 <= i < |files| && 0 <= j < |files| && files[i].url == files[j].url ==> files[i] == files[j]
  }

  ghost predicate DistinctUrls(files: seq<File>) {
    forall i, j :: 0 <= i < j < |files| ==> files[i].url != files[j].url
  }

  // Every file once, where it first stands.
  function Onto(acc: seq<File>, files: seq<File>): seq<File>
    decreases |files|
  {
    if files == [] then acc
    else Onto(if files[0] in acc then acc else acc + [files[0]], files[1..])
  }

  function FirstOfEach(files: seq<File>): seq<File> {
    Onto([], files)
  }

  lemma {:induction false} OntoElements(acc: seq<File>, files: seq<File>)
    ensures forall f :: f in Onto(acc, files) <==> f in acc || f in files
    ensures acc <= Onto(acc, files)
    ensures Distinct(acc) ==> Distinct(Onto(acc, files))
    decreases |files|
  {
    if files != [] {
      OntoElements(if files[0] in acc then acc else acc + [files[0]], files[1..]);
      assert files == [files[0]] + files[1..];
    }
  }

  lemma {:induction false} OntoSum(acc: seq<File>, a: seq<File>, b: seq<File>)
    ensures Onto(acc, a + b) == Onto(Onto(acc, a), b)
    decreases |a|
  {
    if a == [] {
      assert a + b == b;
    } else {
      assert (a + b)[1..] == a[1..] + b;
      OntoSum(if a[0] in acc then acc else acc + [a[0]], a[1..], b);
    }
  }

  lemma {:induction false} OntoOnto(x: seq<File>, y: seq<File>, files: seq<File>)
    ensures Onto(x, Onto(y, files)) == Onto(Onto(x, y), files)
    decreases |files|
  {
    if files != [] {
      var f := files[0];
      OntoElements(x, y);
      if f in y {
        OntoOnto(x, y, files[1..]);
      } else {
        OntoSum(x, y, [f]);
        OntoOnto(x, y + [f], files[1..]);
      }
    }
  }

  lemma OntoNothing(acc: seq<File>)
    ensures Onto(acc, []) == acc
  {
  }

  lemma FirstOfEachSum(a: seq<File>, b: seq<File>, c: seq<File>)
    ensures FirstOfEach(FirstOfEach(a + b) + c) == FirstOfEach(a + b + c) == FirstOfEach(a + FirstOfEach(b + c))
  {
    hide Onto;
    OntoSum([], FirstOfEach(a + b), c);
    OntoOnto([], [], a + b);
    OntoNothing([]);
    OntoSum([], a + b, c);
    OntoSum([], a, FirstOfEach(b + c));
    OntoOnto(Onto([], a), [], b + c);
    OntoNothing(Onto([], a));
    OntoSum([], a, b + c);
    assert a + (b + c) == a + b + c;
  }

  // --- Merging ---

  predicate Agree(a: Extras, b: Extras) {
    forall k :: k in a && k in b ==> a[k] == b[k]
  }

  // The later date: `>=` on strings.
  function Later(a: string, b: string): string {
    if Before(a, b) then b else a
  }

  function Merge(primary: Manifest, secondary: Manifest): Result<Manifest, MergeError> {
    var files := primary.files + secondary.files;
    if primary.version != secondary.version then Err(DifferentVersions)
    else if !Consistent(files) then Err(ConflictingFile)
    else if !Agree(primary.extras, secondary.extras) then Err(ConflictingExtra)
    else Ok(Manifest(primary.version, Later(primary.releaseDate, secondary.releaseDate), FirstOfEach(files),
                     primary.extras + secondary.extras))
  }

  // The values of a map with the keys in the order they were first set.
  function Values(order: seq<string>, byUrl: map<string, File>): (files: seq<File>)
    requires forall u :: u in order ==> u in byUrl
    ensures |files| == |order| && forall i :: 0 <= i < |order| ==> files[i] == byUrl[order[i]]
  {
    seq(|order|, i requires 0 <= i < |order| => byUrl[order[i]])
  }

  // `byUrl` holds exactly the given files, and so no two of them for one URL.
  ghost predicate Indexes(byUrl: map<string, File>, files: seq<File>) {
    && (forall f :: f in files ==> f.url in byUrl && byUrl[f.url] == f)
    && (forall u :: u in byUrl ==> byUrl[u].url == u && byUrl[u] in files)
  }

  lemma IndexesNext(byUrl: map<string, File>, files: seq<File>, f: File)
    requires Indexes(byUrl, files) && (f.url in byUrl ==> byUrl[f.url] == f)
    ensures Indexes(byUrl[f.url := f], files + [f])
  {
  }

  lemma OrderNext(order: seq<string>, byUrl: map<string, File>, files: seq<File>, f: File)
    requires Indexes(byUrl, files) && (f.url in byUrl ==> byUrl[f.url] == f)
    requires (forall u :: u in order <==> u in byUrl) && FirstOfEach(files) == Values(order, byUrl)
    ensures FirstOfEach(files + [f]) == Values(if f.url in byUrl then order else order + [f.url], byUrl[f.url := f])
  {
    OntoSum([], files, [f]);
    OntoElements([], files);
    assert f in FirstOfEach(files) <==> f.url in byUrl;
  }

  method MergeFiles(files: seq<File>) returns (result: Option<seq<File>>)
    ensures result == if Consistent(files) then Some(FirstOfEach(files)) else None
  {
    hide FirstOfEach, Indexes;
    var byUrl: map<string, File>, order: seq<string> := map[], [];
    assert Indexes(byUrl, files[..0]) && FirstOfEach(files[..0]) == Values(order, byUrl) by {
      NothingIndexed();
    }
    for i := 0 to |files|
      invariant Indexes(byUrl, files[..i])
      invariant forall u :: u in order <==> u in byUrl
      invariant FirstOfEach(files[..i]) == Values(order, byUrl)
    {
      var f := files[i];
      assert files[..i + 1] == files[..i] + [f];
      if f.url in byUrl && (byUrl[f.url].sha512 != f.sha512 || byUrl[f.url].size != f.size) {
        Conflicts(byUrl, files, i);
        return None;
      }
      assert f.url in byUrl ==> byUrl[f.url] == f by {
        IndexedUrl(byUrl, files[..i], f.url);
      }
      OrderNext(order, byUrl, files[..i], f);
      IndexesNext(byUrl, files[..i], f);
      if f.url !in byUrl {
        order := order + [f.url];
      }
      byUrl := byUrl[f.url := f];
    }
    assert files[..|files|] == files;
    IndexedIsConsistent(byUrl, files);
    result := Some(Values(order, byUrl));
  }

  lemma NothingIndexed()
    ensures Indexes(map[], []) && FirstOfEach([]) == Values([], map[])
  {
  }

  lemma IndexedUrl(byUrl: map<string, File>, files: seq<File>, u: string)
    requires Indexes(byUrl, files)
    ensures u in byUrl ==> byUrl[u].url == u
  {
  }

  lemma Conflicts(byUrl: map<string, File>, files: seq<File>, i: nat)
    requires i < |files| && Indexes(byUrl, files[..i]) && files[i].url in byUrl && byUrl[files[i].url] != files[i]
    ensures !Consistent(files)
  {
    var j :| 0 <= j < i && files[..i][j] == byUrl[files[i].url];
    assert files[j].url == files[i].url && files[j] != files[i];
  }

  lemma IndexedIsConsistent(byUrl: map<string, File>, files: seq<File>)
    requires Indexes(byUrl, files)
    ensures Consistent(files)
  {
    forall i, j | 0 <= i < |files| && 0 <= j < |files| && files[i].url == files[j].url ensures files[i] == files[j] {
      assert files[i] in files && files[j] in files;
    }
  }

  method MergeExtrasLoop(primary: Extras, secondary: Extras) returns (result: Option<Extras>)
    ensures result == if Agree(primary, secondary) then Some(primary + secondary) else None
  {
    var merged := primary;
    var keys := Elements(secondary.Keys);
    for i := 0 to |keys|
      invariant forall j :: 0 <= j < i && keys[j] in primary ==> primary[keys[j]] == secondary[keys[j]]
      invariant forall k :: k in merged <==> k in primary || k in keys[..i]
      invariant forall k :: k in merged ==> merged[k] == if k in keys[..i] then secondary[k] else primary[k]
    {
      var k := keys[i];
      if k in merged && merged[k] != secondary[k] {
        return None;
      }
      merged := merged[k := secondary[k]];
      assert keys[..i + 1] == keys[..i] + [k];
    }
    assert keys[..|keys|] == keys;
    assert merged == primary + secondary;
    result := Some(merged);
  }

  method MergeManifests(primary: Manifest, secondary: Manifest) returns (result: Result<Manifest, MergeError>)
    ensures result == Merge(primary, secondary)
  {
    if primary.version != secondary.version {
      return Err(DifferentVersions);
    }
    var files := MergeFiles(primary.files + secondary.files);
    if files.None? {
      return Err(ConflictingFile);
    }
    var extras := MergeExtrasLoop(primary.extras, secondary.extras);
    if extras.None? {
      return Err(ConflictingExtra);
    }
    var date := if Before(primary.releaseDate, secondary.releaseDate) then secondary.releaseDate else primary.releaseDate;
    result := Ok(Manifest(primary.version, date, files.value, extras.value));
  }

  // --- What merging keeps ---

  // No file is lost or invented, no URL appears twice, and the date is the later one.
  lemma MergeKeeps(a: Manifest, b: Manifest)
    requires Merge(a, b).Ok?
    ensures var m := Merge(a, b).value;
      && (forall f :: f in m.files <==> f in a.files || f in b.files)
      && DistinctUrls(m.files)
      && (m.releaseDate == a.releaseDate || m.releaseDate == b.releaseDate)
      && !Before(m.releaseDate, a.releaseDate) && !Before(m.releaseDate, b.releaseDate)
      && (forall k :: k in m.extras <==> k in a.extras || k in b.extras)
      && (forall k :: k in a.extras ==> m.extras[k] == a.extras[k])
      && (forall k :: k in b.extras ==> m.extras[k] == b.extras[k])
  {
    var files, out := a.files + b.files, FirstOfEach(a.files + b.files);
    OntoElements([], files);
    forall i, j | 0 <= i < j < |out| ensures out[i].url != out[j].url {
      assert out[i] in files && out[j] in files && out[i] != out[j];
    }
    BeforeIsStrict(a.releaseDate, b.releaseDate);
    BeforeIsStrict(a.releaseDate, a.releaseDate);
    BeforeIsStrict(b.releaseDate, b.releaseDate);
  }

  // Up to the order of files, the order of the two manifests does not matter.
  lemma MergeCommutes(a: Manifest, b: Manifest)
    ensures Merge(a, b).Ok? <==> Merge(b, a).Ok?
    ensures Merge(a, b).Err? ==> Merge(b, a) == Merge(a, b)
    ensures Merge(a, b).Ok? ==>
      var m, n := Merge(a, b).value, Merge(b, a).value;
      && m.(files := []) == n.(files := []) && multiset(m.files) == multiset(n.files)
  {
    ConsistentElements(a.files + b.files, b.files + a.files);
    if Merge(a, b).Ok? {
      assert a.extras + b.extras == b.extras + a.extras;
      BeforeIsStrict(a.releaseDate, b.releaseDate);
      BeforeIsTotal(a.releaseDate, b.releaseDate);
      OntoElements([], a.files + b.files);
      OntoElements([], b.files + a.files);
      SameMultiset(FirstOfEach(a.files + b.files), FirstOfEach(b.files + a.files));
    }
  }

  lemma ConsistentElements(a: seq<File>, b: seq<File>)
    requires forall f :: f in a <==> f in b
    ensures Consistent(a) <==> Consistent(b)
  {
    if Consistent(a) {
      ConsistentElementsOneWay(a, b);
    }
    if Consistent(b) {
      ConsistentElementsOneWay(b, a);
    }
  }

  lemma ConsistentElementsOneWay(a: seq<File>, b: seq<File>)
    requires Consistent(a) && forall f :: f in b ==> f in a
    ensures Consistent(b)
  {
    forall i, j | 0 <= i < |b| && 0 <= j < |b| && b[i].url == b[j].url ensures b[i] == b[j] {
      assert b[i] in a && b[j] in a;
    }
  }

  lemma SameMultiset(a: seq<File>, b: seq<File>)
    requires Distinct(a) && Distinct(b) && forall f :: f in a <==> f in b
    ensures multiset(a) == multiset(b)
  {
    forall f ensures multiset(a)[f] == multiset(b)[f] {
      OnceIn(a, f);
      OnceIn(b, f);
    }
  }

  lemma {:induction false} OnceIn(s: seq<File>, f: File)
    requires Distinct(s)
    ensures multiset(s)[f] == if f in s then 1 else 0
  {
    if s != [] {
      OnceIn(s[1..], f);
      assert s == [s[0]] + s[1..];
    }
  }

  function MergeLeft(a: Manifest, b: Manifest, c: Manifest): Result<Manifest, MergeError> {
    var ab := Merge(a, b);
    if ab.Err? then ab else Merge(ab.value, c)
  }

  function MergeRight(a: Manifest, b: Manifest, c: Manifest): Result<Manifest, MergeError> {
    var bc := Merge(b, c);
    if bc.Err? then bc else Merge(a, bc.value)
  }

  // Three manifests can be merged exactly if any two of their files and extras can.
  predicate Compatible(a: Manifest, b: Manifest, c: Manifest) {
    && a.version == b.version == c.version
    && Consistent(a.files + b.files + c.files)
    && Agree(a.extras, b.extras) && Agree(b.extras, c.extras) && Agree(a.extras, c.extras)
  }

  lemma ConsistentFirstOfEach(s: seq<File>, t: seq<File>, all: seq<File>)
    requires forall f :: f in s + t <==> f in all
    ensures Consistent(s) && Consistent(FirstOfEach(s) + t) <==> Consistent(all)
    ensures Consistent(s) && Consistent(t + FirstOfEach(s)) <==> Consistent(all)
  {
    OntoElements([], s);
    ConsistentElements(FirstOfEach(s) + t, all);
    ConsistentElements(t + FirstOfEach(s), all);
    if Consistent(all) {
      ConsistentElementsOneWay(all, s);
    }
  }

  lemma MergeLeftIs(a: Manifest, b: Manifest, c: Manifest)
    ensures MergeLeft(a, b, c).Ok? <==> Compatible(a, b, c)
    ensures Compatible(a, b, c) ==>
      MergeLeft(a, b, c) == Ok(Manifest(a.version, Later(Later(a.releaseDate, b.releaseDate), c.releaseDate),
                                        FirstOfEach(a.files + b.files + c.files), a.extras + b.extras + c.extras))
  {
    hide Later, Consistent, FirstOfEach;
    ConsistentFirstOfEach(a.files + b.files, c.files, a.files + b.files + c.files);
    FirstOfEachSum(a.files, b.files, c.files);
    assert Agree(a.extras, b.extras) ==>
      (Agree(a.extras + b.extras, c.extras) <==> Agree(b.extras, c.extras) && Agree(a.extras, c.extras));
  }

  lemma MergeRightIs(a: Manifest, b: Manifest, c: Manifest)
    ensures MergeRight(a, b, c).Ok? <==> Compatible(a, b, c)
    ensures Compatible(a, b, c) ==>
      MergeRight(a, b, c) == Ok(Manifest(a.version, Later(a.releaseDate, Later(b.releaseDate, c.releaseDate)),
                                         FirstOfEach(a.files + b.files + c.files), a.extras + b.extras + c.extras))
  {
    hide Later, Consistent, FirstOfEach;
    ConsistentFirstOfEach(b.files + c.files, a.files, a.files + b.files + c.files);
    FirstOfEachSum(a.files, b.files, c.files);
    assert a.extras + (b.extras + c.extras) == a.extras + b.extras + c.extras;
    assert Agree(b.extras, c.extras) ==>
      (Agree(a.extras, b.extras + c.extras) <==> Agree(a.extras, b.extras) && Agree(a.extras, c.extras));
  }

  lemma LaterAssociates(a: string, b: string, c: string)
    ensures Later(Later(a, b), c) == Later(a, Later(b, c))
  {
    hide Before;
    BeforeIsTotal(a, b);
    BeforeIsTotal(b, c);
    if Before(a, b) && Before(b, c) {
      BeforeIsTransitive(a, b, c);
    }
    if Before(b, a) && Before(a, c) {
      BeforeIsTransitive(b, a, c);
    }
    if Before(a, c) && Before(c, b) {
      BeforeIsTransitive(a, c, b);
    }
    if Before(c, b) && Before(b, a) {
      BeforeIsTransitive(c, b, a);
    }
    BeforeIsStrict(a, b);
    BeforeIsStrict(b, c);
    BeforeIsStrict(a, c);
  }

  // Three manifests merge into the same one, with the same file order, or fail, either way round.
  lemma MergeAssociates(a: Manifest, b: Manifest, c: Manifest)
    ensures MergeLeft(a, b, c).Ok? <==> MergeRight(a, b, c).Ok?
    ensures MergeLeft(a, b, c).Ok? ==> MergeLeft(a, b, c) == MergeRight(a, b, c)
  {
    hide MergeLeft, MergeRight, Compatible, Later, FirstOfEach;
    MergeLeftIs(a, b, c);
    MergeRightIs(a, b, c);
    LaterAssociates(a.releaseDate, b.releaseDate, c.releaseDate);
  }

  // What is merged from printable manifests can be printed and read back.
  lemma MergeKeepsPrintable(a: Manifest, b: Manifest, keys: seq<string>)
    requires IsPrintable(a) && IsPrintable(b) && Merge(a, b).Ok? && AreKeys(keys, Merge(a, b).value.extras)
    ensures Parse(Text.Join(Lines(Merge(a, b).value, keys))) == Ok(Merge(a, b).value)
  {
    hide IsPlainVersion, IsPlain, Text.OneLine, IsExtraKey, IsExtra, Parse, Lines;
    var m := Merge(a, b).value;
    MergeKeeps(a, b);
    OntoElements([], a.files + b.files);
    assert a.files[0] in m.files;
    ParseSerialize(m, keys);
  }
}

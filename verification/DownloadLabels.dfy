/** lava_mcp/jobs.py: the image keys of a "deploy: to: downloads" action, and the paths that
    lava_mcp/server.py reports for them. */
module DownloadLabels {
  import opened Text

  datatype Item = Item(url: string, headers: map<string, string>)
  datatype Image = Image(url: string, headers: Option<map<string, string>>)

  // ---- download_label --------------------------------------------------------------

  predicate Allowed(c: char) {
    'A' <= c <= 'Z' || 'a' <= c <= 'z' || '0' <= c <= '9' || c in {'.', '_', '-'}
  }

  /** str.lstrip(c) */
  function DropLeading(s: string, c: char): (t: string)
    ensures |t| <= |s| && t == s[|s|-|t|..] && (t == "" || t[0] != c)
  {
    if s != "" && s[0] == c then DropLeading(s[1..], c) else s
  }

  /** What follows the last `c` of `s`. */
  function AfterLast(s: string, c: char): (t: string)
    ensures c !in t && |t| <= |s|
  {
    if s == "" || s[|s|-1] == c then "" else AfterLast(s[..|s|-1], c) + [s[|s|-1]]
  }

  function SkipRefused(s: string): (t: string)
    ensures |t| <= |s|
  {
    if s != "" && !Allowed(s[0]) then SkipRefused(s[1..]) else s
  }

  /** re.sub(r"[^A-Za-z0-9._-]+", "_", s) */
  function Sanitize(s: string): string
    decreases |s|
  {
    if s == "" then ""
    else if Allowed(s[0]) then [s[0]] + Sanitize(s[1..])
    else "_" + Sanitize(SkipRefused(s[1..]))
  }

  function Stem(url: string): string {
    var base := BeforeFirst(AfterLast(DropTrailing(url, '/'), '/'), '?');
    DropTrailing(DropLeading(Sanitize(base), '_'), '_')
  }

  function DownloadLabel(url: string, index: nat := 0): (key: string)
    ensures key != ""
  {
    if Stem(url) != "" then Stem(url) else "dl" + Decimal(index)
  }

  // ---- the collision loop ------------------------------------------------------------

  /** The keys that a key of length `n` or more could still collide with. */
  function Rivals(taken: set<string>, n: nat): set<string> {
    set t | t in taken && |t| >= n
  }

  function Suffix(i: nat): string {
    "_" + Decimal(i)
  }

  lemma RivalsShrink(taken: set<string>, key: string, i: nat)
    requires key in taken
    ensures |Rivals(taken, |key + Suffix(i)|)| < |Rivals(taken, |key|)|
  {
    var fewer, more := Rivals(taken, |key + Suffix(i)|), Rivals(taken, |key|);
    assert fewer <= more - {key};
    SubsetSize(fewer, more - {key});
  }

  lemma SubsetSize<T>(a: set<T>, b: set<T>)
    requires a <= b
    ensures |a| <= |b|
  {
    if a != {} {
      var x :| x in a;
      SubsetSize(a - {x}, b - {x});
    }
  }

  /** The key the loop settles on. */
  function Free(key: string, i: nat, taken: set<string>): (r: string)
    ensures r !in taken
    ensures key <= r && (r == key <==> key !in taken)
    decreases |Rivals(taken, |key|)|
  {
    if key in taken then
      RivalsShrink(taken, key, i);
      Free(key + Suffix(i), i, taken)
    else key
  }

  ghost function Keys(labels: seq<string>): set<string> {
    set l | l in labels
  }

  /** The keys given to items with these base labels, in order. */
  ghost function Assign(bases: seq<string>): (keys: seq<string>)
    ensures |keys| == |bases|
  {
    if bases == [] then [] else
      var n := |bases| - 1;
      var before := Assign(bases[..n]);
      before + [Free(bases[n], n, Keys(before))]
  }

  ghost function Bases(items: seq<Item>): (bases: seq<string>)
    ensures |bases| == |items|
    ensures forall i :: 0 <= i < |items| ==> bases[i] == DownloadLabel(items[i].url, i)
  {
    seq(|items|, i requires 0 <= i < |items| => DownloadLabel(items[i].url, i))
  }

  /** The image key of every item, in order. */
  ghost function Labels(items: seq<Item>): (keys: seq<string>)
    ensures |keys| == |items|
  {
    Assign(Bases(items))
  }

  lemma AssignNext(bases: seq<string>, i: nat)
    requires i < |bases|
    ensures Assign(bases[..i+1]) == Assign(bases[..i]) + [Free(bases[i], i, Keys(Assign(bases[..i])))]
  {
    assert bases[..i+1][..i] == bases[..i];
  }

  /** An image has its item's URL, and its headers if there are any. */
  predicate Shows(image: Image, item: Item) {
    && image.url == item.url
    && (item.headers == map[] ==> image.headers == None)
    && (item.headers != map[] ==> image.headers == Some(item.headers))
  }

  /** The dictionary holds exactly the image of every item, under its own key. */
  ghost predicate Filled(images: map<string, Image>, keys: seq<string>, items: seq<Item>) {
    && |keys| == |items| == |images|
    && images.Keys == Keys(keys)
    && forall k :: 0 <= k < |items| ==> keys[k] in images && Shows(images[keys[k]], items[k])
  }

  lemma KeysNext(keys: seq<string>, key: string)
    ensures Keys(keys + [key]) == Keys(keys) + {key}
  {
    assert (keys + [key])[|keys|] == key;
    assert forall l :: l in keys + [key] <==> l in keys || l == key;
  }

  lemma FilledNext(images: map<string, Image>, keys: seq<string>, items: seq<Item>, key: string, item: Item, image: Image)
    requires Filled(images, keys, items) && key !in images && Shows(image, item)
    ensures Filled(images[key := image], keys + [key], items + [item])
  {
    var images', keys', items' := images[key := image], keys + [key], items + [item];
    assert images'.Keys == images.Keys + {key};
    KeysNext(keys, key);
    forall k | 0 <= k < |items'| ensures keys'[k] in images' && Shows(images'[keys'[k]], items'[k]) {
      assert k < |items| ==> keys[k] in Keys(keys);
    }
  }

  method BuildDownloads(items: seq<Item>) returns (images: map<string, Image>)
    ensures Filled(images, Labels(items), items)
  {
    images := map[];
    ghost var bases := Bases(items);
    ghost var keys: seq<string> := [];
    for i := 0 to |items|
      invariant keys == Assign(bases[..i])
      invariant Filled(images, keys, items[..i])
    {
      var key := DownloadLabel(items[i].url, i);
      while key in images
        invariant Free(key, i, images.Keys) == Free(bases[i], i, images.Keys)
        decreases |Rivals(images.Keys, |key|)|
      {
        RivalsShrink(images.Keys, key, i);
        key := key + Suffix(i);
      }
      var image := Image(items[i].url, None);
      if |items[i].headers| > 0 {
        image := image.(headers := Some(items[i].headers));
      }
      AssignNext(bases, i);
      FilledNext(images, keys, items[..i], key, items[i], image);
      TakeNext(items, i);
      images := images[key := image];
      keys := keys + [key];
    }
    TakeAll(bases);
    TakeAll(items);
  }

  // ---- what the labels promise ---------------------------------------------------------

  lemma {:induction false} AssignPrefix(bases: seq<string>, k: nat)
    requires k <= |bases|
    ensures Assign(bases[..k]) == Assign(bases)[..k]
    decreases |bases| - k
  {
    if k == |bases| {
      assert bases[..k] == bases;
    } else {
      AssignPrefix(bases, k + 1);
      AssignNext(bases, k);
    }
  }

  /** What each key is, in terms of the keys before it. */
  lemma AssignAt(bases: seq<string>, i: nat)
    requires i < |bases|
    ensures Assign(bases)[i] == Free(bases[i], i, Keys(Assign(bases)[..i]))
  {
    AssignPrefix(bases, i + 1);
    AssignPrefix(bases, i);
    AssignNext(bases, i);
    assert Assign(bases)[i] == Assign(bases[..i+1])[i];
  }

  lemma AssignDistinct(bases: seq<string>)
    ensures forall i, j :: 0 <= i < j < |bases| ==> Assign(bases)[i] != Assign(bases)[j]
  {
    forall i, j | 0 <= i < j < |bases| ensures Assign(bases)[i] != Assign(bases)[j] {
      AssignAt(bases, j);
      assert Assign(bases)[i] in Assign(bases)[..j];
    }
  }

  /** n downloads get n different image keys. */
  lemma LabelsDistinct(items: seq<Item>)
    ensures forall i, j :: 0 <= i < j < |items| ==> Labels(items)[i] != Labels(items)[j]
  {
    AssignDistinct(Bases(items));
  }

  /** Only letters, digits, dot, underscore and hyphen. */
  predicate Inert(s: string) {
    forall i :: 0 <= i < |s| ==>
      'A' <= s[i] <= 'Z' || 'a' <= s[i] <= 'z' || '0' <= s[i] <= '9' || s[i] == '.' || s[i] == '_' || s[i] == '-'
  }

  lemma SanitizeInert(s: string)
    ensures Inert(Sanitize(s))
    decreases |s|
  {
    if s != "" {
      SanitizeInert(if Allowed(s[0]) then s[1..] else SkipRefused(s[1..]));
    }
  }

  lemma FreeInert(key: string, i: nat, taken: set<string>)
    requires Inert(key)
    ensures Inert(Free(key, i, taken))
    decreases |Rivals(taken, |key|)|
  {
    if key in taken {
      RivalsShrink(taken, key, i);
      FreeInert(key + Suffix(i), i, taken);
    }
  }

  /** Every label is a non-empty path component without separators. */
  lemma LabelsInert(items: seq<Item>, i: nat)
    requires i < |items|
    ensures Labels(items)[i] != "" && Inert(Labels(items)[i])
  {
    AssignAt(Bases(items), i);
    LabelInert(items[i].url, i);
    FreeInert(DownloadLabel(items[i].url, i), i, Keys(Labels(items)[..i]));
  }

  lemma LabelInert(url: string, i: nat)
    ensures Inert(DownloadLabel(url, i))
  {
    var clean := Sanitize(BeforeFirst(AfterLast(DropTrailing(url, '/'), '/'), '?'));
    SanitizeInert(BeforeFirst(AfterLast(DropTrailing(url, '/'), '/'), '?'));
    StripInert(clean);
    NumberedInert(Decimal(i));
    LabelIs(url, i);
  }

  lemma NumberedInert(digits: string)
    requires AllDigits(digits)
    ensures Inert("dl" + digits)
  {}

  lemma StripInert(s: string)
    requires Inert(s)
    ensures Inert(DropTrailing(DropLeading(s, '_'), '_'))
  {}

  lemma {:induction false} FreeExtends(key: string, i: nat, taken: set<string>)
    ensures Free(key, i, taken) == key || '_' in Free(key, i, taken)
    decreases |Rivals(taken, |key|)|
  {
    if key in taken {
      RivalsShrink(taken, key, i);
      FreeExtends(key + Suffix(i), i, taken);
      assert (key + Suffix(i))[|key|] == '_';
    }
  }

  predicate Dots(s: string) {
    s == "." || s == ".."
  }

  lemma FreeDots(key: string, i: nat, taken: set<string>)
    ensures Dots(Free(key, i, taken)) <==> Dots(key) && key !in taken
  {
    FreeExtends(key, i, taken);
    assert Dots(Free(key, i, taken)) ==> '_' !in Free(key, i, taken);
  }

  lemma LabelIs(url: string, i: nat)
    ensures DownloadLabel(url, i) == if Stem(url) != "" then Stem(url) else "dl" + Decimal(i)
  {}

  lemma NumberedNotDots(digits: string)
    ensures !Dots("dl" + digits)
  {
    assert ("dl" + digits)[0] == 'd';
  }

  lemma LabelOfDots(url: string, i: nat)
    ensures Dots(DownloadLabel(url, i)) <==> Dots(Stem(url))
    ensures Dots(Stem(url)) ==> DownloadLabel(url, i) == Stem(url)
  {
    LabelIs(url, i);
    NumberedNotDots(Decimal(i));
  }

  /** Exactly when a label names a directory instead: the URL's last component is "." or ".." and no
      earlier item was given it. */
  lemma LabelDotsIff(items: seq<Item>, i: nat)
    requires i < |items|
    ensures Dots(Labels(items)[i]) <==> Dots(Stem(items[i].url)) && Stem(items[i].url) !in Labels(items)[..i]
  {
    var taken := Keys(Labels(items)[..i]);
    AssignAt(Bases(items), i);
    LabelOfDots(items[i].url, i);
    FreeDots(DownloadLabel(items[i].url, i), i, taken);
    assert Stem(items[i].url) in taken <==> Stem(items[i].url) in Labels(items)[..i];
  }

  // ---- agreement with open_board_session -------------------------------------------------

  const DOWNLOADS := "/lava-downloads/"

  function ExpectedPath(url: string): string {
    DOWNLOADS + DownloadLabel(url)
  }

  /** The reported path of item `i` is where LAVA puts it. */
  ghost predicate PathRight(items: seq<Item>, i: nat)
    requires i < |items|
  {
    ExpectedPath(items[i].url) == DOWNLOADS + Labels(items)[i]
  }

  lemma SameTail(prefix: string, a: string, b: string)
    ensures prefix + a == prefix + b <==> a == b
  {
    if prefix + a == prefix + b {
      assert a == (prefix + a)[|prefix|..] == (prefix + b)[|prefix|..] == b;
    }
  }

  lemma EmptyStemMoves(i: nat, taken: set<string>)
    requires i > 0
    ensures Free("dl" + Decimal(i), i, taken) != "dl" + Decimal(0)
  {
    DecimalLeadingDigit(i);
    var base := "dl" + Decimal(i);
    assert base[2] == Decimal(i)[0] && ("dl" + Decimal(0))[2] == '0';
    assert Free(base, i, taken)[2] == base[2];
  }

  /** An item is reported at the right path exactly when its stem is usable (an empty stem is
      harmless only in first place) and no earlier item took its label. */
  lemma PathRightIff(items: seq<Item>, i: nat)
    requires i < |items|
    ensures PathRight(items, i) <==>
            (i == 0 || Stem(items[i].url) != "") && DownloadLabel(items[i].url) !in Labels(items)[..i]
  {
    var taken := Keys(Labels(items)[..i]);
    AssignAt(Bases(items), i);
    SameTail(DOWNLOADS, DownloadLabel(items[i].url), Labels(items)[i]);
    if i > 0 && Stem(items[i].url) == "" {
      EmptyStemMoves(i, taken);
    } else {
      assert DownloadLabel(items[i].url, i) == DownloadLabel(items[i].url);
      assert DownloadLabel(items[i].url) in taken <==> DownloadLabel(items[i].url) in Labels(items)[..i];
    }
  }

  /** The server reports the items that have a URL. */
  predicate Reported(items: seq<Item>, i: nat)
    requires i < |items|
  {
    items[i].url != ""
  }

  ghost predicate AllPathsRight(items: seq<Item>) {
    forall i :: 0 <= i < |items| && Reported(items, i) ==> PathRight(items, i)
  }

  /** No reported item but the first has an empty stem. */
  ghost predicate LaterStemsUsable(items: seq<Item>) {
    forall i :: 0 < i < |items| && Reported(items, i) ==> Stem(items[i].url) != ""
  }

  ghost predicate ReportedDistinct(items: seq<Item>) {
    forall i, j :: 0 <= i < j < |items| && Reported(items, i) && Reported(items, j) ==>
      ExpectedPath(items[i].url) != ExpectedPath(items[j].url)
  }

  /** No item without a URL was given a label that a later item is reported under. */
  ghost predicate UnreportedApart(items: seq<Item>) {
    forall i, j :: 0 <= i < j < |items| && !Reported(items, i) && Reported(items, j) ==>
      ExpectedPath(items[j].url) != DOWNLOADS + Labels(items)[i]
  }

  /** All reported paths are right exactly when no later reported item has an empty stem, the reported
      paths are pairwise distinct, and none is the label of an earlier item without a URL. */
  lemma AllPathsRightIff(items: seq<Item>)
    ensures AllPathsRight(items) <==> LaterStemsUsable(items) && ReportedDistinct(items) && UnreportedApart(items)
  {
    if LaterStemsUsable(items) && ReportedDistinct(items) && UnreportedApart(items) {
      forall i | 0 <= i < |items| && Reported(items, i) ensures PathRight(items, i) {
        DistinctReportsRight(items, i);
      }
    }
    if AllPathsRight(items) {
      RightReportsDistinct(items);
    }
  }

  lemma RightReportsDistinct(items: seq<Item>)
    requires AllPathsRight(items)
    ensures LaterStemsUsable(items) && ReportedDistinct(items) && UnreportedApart(items)
  {
    forall i | 0 < i < |items| && Reported(items, i) ensures Stem(items[i].url) != "" {
      PathRightIff(items, i);
    }
    forall i, j | 0 <= i < j < |items| && Reported(items, j)
      ensures ExpectedPath(items[j].url) != DOWNLOADS + Labels(items)[i]
    {
      LabelsDistinct(items);
      SameTail(DOWNLOADS, Labels(items)[i], Labels(items)[j]);
    }
    forall i, j | 0 <= i < j < |items| && Reported(items, i) && Reported(items, j)
      ensures ExpectedPath(items[i].url) != ExpectedPath(items[j].url)
    {
      assert PathRight(items, i);
    }
  }

  lemma {:induction false} DistinctReportsRight(items: seq<Item>, i: nat)
    requires LaterStemsUsable(items) && ReportedDistinct(items) && UnreportedApart(items)
    requires i < |items| && Reported(items, i)
    ensures PathRight(items, i)
    decreases i
  {
    forall j | 0 <= j < i ensures Labels(items)[j] != DownloadLabel(items[i].url) {
      if Reported(items, j) {
        DistinctReportsRight(items, j);
      }
    }
    assert DownloadLabel(items[i].url) !in Labels(items)[..i];
    PathRightIff(items, i);
  }
}

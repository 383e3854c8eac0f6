/** What the label of a URL is, in terms of the text of the URL: the last component of its path, as far
    as the query, with the characters that are not allowed in a label squeezed out. */
module LabelLaws {
  import opened Text
  import opened DownloadLabels

  predicate Slashes(s: string) {
    forall i :: 0 <= i < |s| ==> s[i] == '/'
  }

  /** A piece of a component that is kept as it is, and does not begin or end with an underscore. */
  predicate Clean(name: string) {
    name != "" && Inert(name) && name[0] != '_' && name[|name|-1] != '_'
  }

  /** Characters none of which is allowed in a label. */
  predicate Refused(s: string) {
    forall i :: 0 <= i < |s| ==> !Inert([s[i]])
  }

  // ---- finding the component ------------------------------------------------------------------

  lemma {:induction false} TrailingSlashes(s: string, slashes: string)
    requires Slashes(slashes) && (s == "" || s[|s|-1] != '/')
    ensures DropTrailing(s + slashes, '/') == s
  {
    if slashes == "" {
      assert s + slashes == s;
    } else {
      var fewer := slashes[..|slashes|-1];
      assert (s + slashes)[..|s + slashes|-1] == s + fewer;
      TrailingSlashes(s, fewer);
    }
  }

  lemma {:induction false} AfterSlash(prefix: string, component: string)
    requires '/' !in component
    ensures AfterLast(prefix + "/" + component, '/') == component
  {
    var s := prefix + "/" + component;
    if component == "" {
      assert s[|s|-1] == '/';
    } else {
      var fewer := component[..|component|-1];
      assert s[..|s|-1] == prefix + "/" + fewer;
      AfterSlash(prefix, fewer);
    }
  }

  lemma {:induction false} BeforeQuery(component: string, query: string)
    requires '?' !in component && (query == "" || query[0] == '?')
    ensures BeforeFirst(component + query, '?') == component
  {
    if component == "" {
      assert component + query == query;
    } else {
      assert (component + query)[1..] == component[1..] + query;
      BeforeQuery(component[1..], query);
    }
  }

  /** The query is cut off, and slashes at the end of the URL do not count. */
  predicate Ending(component: string, query: string, slashes: string) {
    && component + query != "" && '/' !in component && '?' !in component
    && (query == "" || query[0] == '?') && '/' !in query && Slashes(slashes)
  }

  lemma BaseOf(prefix: string, component: string, query: string, slashes: string)
    requires Ending(component, query, slashes)
    ensures BeforeFirst(AfterLast(DropTrailing(prefix + "/" + (component + query) + slashes, '/'), '/'), '?') == component
  {
    var last := component + query;
    assert last[|last|-1] in last && '/' !in last;
    TrailingSlashes(prefix + "/" + last, slashes);
    AfterSlash(prefix, last);
    BeforeQuery(component, query);
  }

  // ---- squeezing it ---------------------------------------------------------------------------

  lemma AllowedIsInert(c: char)
    ensures Allowed(c) <==> Inert([c])
  {
    assert [c][0] == c;
  }

  lemma InertParts(a: string, b: string)
    ensures Inert(a + b) <==> Inert(a) && Inert(b)
  {
    if Inert(a + b) {
      assert forall i :: 0 <= i < |a| ==> (a + b)[i] == a[i];
      assert forall i :: 0 <= i < |b| ==> (a + b)[|a| + i] == b[i];
    }
  }

  lemma {:induction false} SanitizeKeeps(a: string, b: string)
    requires Inert(a)
    ensures Sanitize(a + b) == a + Sanitize(b)
  {
    if a == "" {
      assert a + b == b;
    } else {
      AllowedIsInert(a[0]);
      InertParts([a[0]], a[1..]);
      assert a == [a[0]] + a[1..];
      assert (a + b)[1..] == a[1..] + b;
      SanitizeKeeps(a[1..], b);
    }
  }

  lemma {:induction false} SkipsRefused(bad: string, b: string)
    requires Refused(bad) && (b == "" || Inert([b[0]]))
    ensures SkipRefused(bad + b) == b
  {
    if bad == "" {
      assert bad + b == b;
      if b != "" {
        AllowedIsInert(b[0]);
      }
    } else {
      AllowedIsInert(bad[0]);
      assert (bad + b)[1..] == bad[1..] + b;
      SkipsRefused(bad[1..], b);
    }
  }

  /** A run of refused characters becomes one underscore. */
  lemma SanitizeRun(bad: string, b: string)
    requires bad != "" && Refused(bad) && (b == "" || Inert([b[0]]))
    ensures Sanitize(bad + b) == "_" + Sanitize(b)
  {
    AllowedIsInert(bad[0]);
    assert (bad + b)[1..] == bad[1..] + b;
    SkipsRefused(bad[1..], b);
  }

  lemma CleanKept(name: string)
    requires name != "" && name[0] != '_' && name[|name|-1] != '_'
    ensures DropTrailing(DropLeading(name, '_'), '_') == name
  {}

  // ---- the laws ---------------------------------------------------------------------------------

  /** The label of a URL is the last component of its path. */
  lemma LabelIsLast(prefix: string, name: string, query: string, slashes: string, i: nat)
    requires Clean(name) && Ending(name, query, slashes)
    ensures DownloadLabel(prefix + "/" + (name + query) + slashes, i) == name
  {
    BaseOf(prefix, name, query, slashes);
    SanitizeKeeps(name, "");
    assert name + "" == name;
    CleanKept(name);
    LabelIs(prefix + "/" + (name + query) + slashes, i);
  }

  lemma {:induction false} NoSlash(s: string)
    requires '/' !in s
    ensures AfterLast(s, '/') == s
  {
    if s != "" {
      NoSlash(s[..|s|-1]);
    }
  }

  /** The same for a URL that is one component. */
  lemma LabelOfWord(name: string, query: string, slashes: string, i: nat)
    requires Clean(name) && Ending(name, query, slashes)
    ensures DownloadLabel(name + query + slashes, i) == name
  {
    var last := name + query;
    assert last[|last|-1] in last && '/' !in last;
    TrailingSlashes(last, slashes);
    NoSlash(last);
    BeforeQuery(name, query);
    SanitizeKeeps(name, "");
    assert name + "" == name;
    CleanKept(name);
    LabelIs(name + query + slashes, i);
  }

  /** A run of refused characters inside the component becomes one underscore. */
  lemma LabelSqueezes(prefix: string, a: string, bad: string, b: string, query: string, slashes: string, i: nat)
    requires Clean(a) && bad != "" && Refused(bad) && Clean(b) && Ending(a + bad + b, query, slashes)
    ensures DownloadLabel(prefix + "/" + (a + bad + b + query) + slashes, i) == a + "_" + b
  {
    BaseOf(prefix, a + bad + b, query, slashes);
    InertParts([b[0]], b[1..]);
    assert b == [b[0]] + b[1..];
    Concat(a, bad, b);
    SanitizeKeeps(a, bad + b);
    SanitizeRun(bad, b);
    SanitizeKeeps(b, "");
    assert b + "" == b;
    Concat(a, "_", b);
    CleanKept(a + "_" + b);
    LabelIs(prefix + "/" + (a + bad + b + query) + slashes, i);
  }

  /** Refused characters at the ends of the component are dropped. */
  lemma LabelTrims(prefix: string, before: string, name: string, after: string, query: string, slashes: string, i: nat)
    requires Clean(name) && Refused(before) && Refused(after) && Ending(before + name + after, query, slashes)
    ensures DownloadLabel(prefix + "/" + (before + name + after + query) + slashes, i) == name
  {
    BaseOf(prefix, before + name + after, query, slashes);
    Concat(before, name, after);
    InertParts([name[0]], name[1..]);
    assert name == [name[0]] + name[1..];
    assert (name + after)[0] == name[0];
    SanitizeEnds(before, name, after);
    StripsOne(if before == "" then "" else "_", name, if after == "" then "" else "_");
    LabelIs(prefix + "/" + (before + name + after + query) + slashes, i);
  }

  lemma SanitizeEnds(before: string, name: string, after: string)
    requires Clean(name) && Inert([name[0]]) && Refused(before) && Refused(after)
    ensures Sanitize(before + (name + after)) ==
            (if before == "" then "" else "_") + name + (if after == "" then "" else "_")
  {
    SanitizeKeeps(name, after);
    assert (name + after)[0] == name[0];
    if after != "" {
      SanitizeRun(after, "");
      assert after + "" == after;
    }
    if before == "" {
      assert before + (name + after) == name + after;
    } else {
      SanitizeRun(before, name + after);
    }
  }

  lemma LeadStrip(left: string, rest: string)
    requires (left == "" || left == "_") && rest != "" && rest[0] != '_'
    ensures DropLeading(left + rest, '_') == rest
  {
    if left == "" {
      assert left + rest == rest;
    } else {
      assert (left + rest)[1..] == rest;
    }
  }

  lemma TrailStrip(rest: string, right: string)
    requires (right == "" || right == "_") && rest != "" && rest[|rest|-1] != '_'
    ensures DropTrailing(rest + right, '_') == rest
  {
    if right == "" {
      assert rest + right == rest;
    } else {
      assert (rest + right)[..|rest|] == rest;
    }
  }

  lemma StripsOne(left: string, name: string, right: string)
    requires name != "" && name[0] != '_' && name[|name|-1] != '_'
    requires (left == "" || left == "_") && (right == "" || right == "_")
    ensures DropTrailing(DropLeading(left + name + right, '_'), '_') == name
  {
    Concat(left, name, right);
    LeadStrip(left, name + right);
    TrailStrip(name, right);
  }

  /** A component of refused characters only, or none at all, has no stem: the label is the position. */
  lemma LabelNumbers(prefix: string, bad: string, query: string, slashes: string, i: nat)
    requires Refused(bad) && Ending(bad, query, slashes)
    ensures DownloadLabel(prefix + "/" + (bad + query) + slashes, i) == "dl" + Decimal(i)
  {
    BaseOf(prefix, bad, query, slashes);
    if bad != "" {
      SanitizeRun(bad, "");
      assert bad + "" == bad;
      assert "_"[1..] == "";
    }
    LabelIs(prefix + "/" + (bad + query) + slashes, i);
  }

  lemma LabelOfNothing(slashes: string, i: nat)
    requires Slashes(slashes)
    ensures DownloadLabel(slashes, i) == "dl" + Decimal(i)
  {
    TrailingSlashes("", slashes);
    assert "" + slashes == slashes;
    LabelIs(slashes, i);
  }

  /** The server reports the last component below /lava-downloads/. */
  lemma ReportedPath(prefix: string, name: string, query: string, slashes: string)
    requires Clean(name) && Ending(name, query, slashes)
    ensures ExpectedPath(prefix + "/" + (name + query) + slashes) == "/lava-downloads/" + name
  {
    LabelIsLast(prefix, name, query, slashes, 0);
  }

  // ---- the keys of the action -------------------------------------------------------------------

  /** An item whose name no earlier item has been given is in the action under that name. */
  lemma KeyOf(images: map<string, Image>, items: seq<Item>, i: nat, name: string)
    requires Filled(images, Labels(items), items) && i < |items|
    requires DownloadLabel(items[i].url, i) == name && name !in Labels(items)[..i]
    ensures name in images && images[name].url == items[i].url
  {
    AssignAt(Bases(items), i);
    assert name !in Keys(Labels(items)[..i]);
    assert Labels(items)[i] == name;
  }

  function Times(s: string, n: nat): string {
    if n == 0 then "" else Times(s, n - 1) + s
  }

  lemma {:induction false} TimesFront(s: string, n: nat)
    ensures s + Times(s, n) == Times(s, n + 1)
  {
    if n > 0 {
      TimesFront(s, n - 1);
      Concat(s, Times(s, n - 1), s);
    } else {
      assert s + "" == "" + s;
    }
  }

  /** A taken label gets "_<position>" appended as often as it takes to be free, and not once more. */
  lemma {:induction false} CollisionSuffix(key: string, i: nat, taken: set<string>) returns (n: nat)
    ensures Free(key, i, taken) == key + Times("_" + Decimal(i), n) && key + Times("_" + Decimal(i), n) !in taken
    ensures forall k :: 0 <= k < n ==> key + Times("_" + Decimal(i), k) in taken
    decreases |Rivals(taken, |key|)|
  {
    var s := "_" + Decimal(i);
    if key !in taken {
      n := 0;
      assert key + "" == key;
    } else {
      RivalsShrink(taken, key, i);
      n := CollisionSuffix(key + s, i, taken);
      Shifted(key, s, n);
      forall k | 0 <= k < n + 1 ensures key + Times(s, k) in taken {
        if k == 0 {
          assert key + "" == key;
        } else {
          Shifted(key, s, k - 1);
        }
      }
      n := n + 1;
    }
  }

  lemma Shifted(key: string, s: string, n: nat)
    ensures key + s + Times(s, n) == key + Times(s, n + 1)
  {
    TimesFront(s, n);
    Concat(key, s, Times(s, n));
  }
}

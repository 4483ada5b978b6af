/** Tracking-link assembly, `generate_af_links` (app.py lines 169-204): base
    URLs come from the app table, templates from the network table, and
    `{field}` placeholders in the templates are replaced by field values. */
module AfLinks {
  import opened Wrappers
  import opened Fields
  import opened Replace
  import Ascii

  /** One lookup-table object: string keys bound to template or URL strings. */
  type Entry = map<string, string>

  /** A lookup table (`networkindex.json` or `appindex.json`) as loaded. */
  type Table = map<string, Entry>

  const DefaultClickBase: string := "https://amaya.onelink.me/197923601"
  const DefaultImpBase: string := "https://impression.amaya.com"

  /** The two soft failures `generate_af_links` collects. */
  datatype Warning = NoNetworkEntry(networkId: string) | NoAppEntry(appKey: string)

  /** The returned click and impression URLs, plus the warnings actually shown. */
  datatype Links = Links(click: string, imp: string, shown: seq<Warning>)

  /** The placeholder `{key}` a template uses for a field. */
  function Placeholder(key: string): (r: string)
    ensures |r| == |key| + 2 && r[0] == '{' && r[|r| - 1] == '}'
    ensures forall m :: 1 <= m <= |key| ==> r[m] == key[m - 1]
  {
    "{" + key + "}"
  }

  /** `table.get(key)` is truthy: the key is bound to a non-empty object. */
  predicate HasEntry(t: Table, key: string)
  {
    key in t && t[key] != map[]
  }

  /** `entry.get(key, default)`. */
  function GetOr(e: Entry, key: string, default: string): string
  {
    if key in e then e[key] else default
  }

  /** The f-string rendering of a field, or "" when the field is absent. */
  function FieldText(rec: Record, key: string): string
  {
    match Lookup(rec, key)
    case Some(v) => Render(v)
    case None => ""
  }

  /** The network-table key: agency and publisher, concatenated and upper-cased. */
  function NetworkKey(rec: Record): string
  {
    Ascii.Upper(FieldText(rec, "agency") + FieldText(rec, "publisher"))
  }

  /** The app-table key `brand-region-platform`, exactly as extracted (no case change). */
  function AppKey(rec: Record): string
  {
    FieldText(rec, "brand") + "-" + FieldText(rec, "region") + "-" + FieldText(rec, "platform")
  }

  /** The base URL stored under `field` in the app entry, or `default` when
      the entry or the field is missing. */
  function AppBase(app: Table, key: string, field: string, default: string): (r: string)
    ensures HasEntry(app, key) && field in app[key] ==> r == app[key][field]
    ensures !(key in app && field in app[key]) ==> r == default
  {
    var entry := if HasEntry(app, key) then app[key] else map[];
    GetOr(entry, field, default)
  }

  /** The substitution loop of lines 193-196: for each string-valued field,
      in record order, every `{key}` is replaced by the field's value;
      non-string values are skipped. */
  function Substitute(t: string, rec: Record): string
    decreases |rec|
  {
    if |rec| == 0 then t
    else
      var t' := if rec[0].1.Str? then ReplaceAll(t, Placeholder(rec[0].0), rec[0].1.s) else t;
      Substitute(t', rec[1..])
  }

  /** The fields `generate_af_links` reads with `parsed[...]`, in reading order. */
  const LinkKeys: seq<string> := ["agency", "publisher", "brand", "region", "platform"]

  /** The key of the KeyError `generate_af_links` raises: the first of the
      fields it reads that is absent, or None when all five are present. */
  function FirstMissing(parsed: Record): (r: Option<string>)
    ensures r.None? <==> forall j :: 0 <= j < |LinkKeys| ==> Lookup(parsed, LinkKeys[j]).Some?
    ensures r.Some? ==> exists j :: (0 <= j < |LinkKeys| && r.value == LinkKeys[j] && Lookup(parsed, LinkKeys[j]).None? &&
                                     forall j' :: 0 <= j' < j ==> Lookup(parsed, LinkKeys[j']).Some?)
  {
    var ks := LinkKeys;
    if Lookup(parsed, "agency").None? then assert ks[0] == "agency"; Some("agency")
    else if Lookup(parsed, "publisher").None? then assert ks[1] == "publisher"; Some("publisher")
    else if Lookup(parsed, "brand").None? then assert ks[2] == "brand"; Some("brand")
    else if Lookup(parsed, "region").None? then assert ks[3] == "region"; Some("region")
    else if Lookup(parsed, "platform").None? then assert ks[4] == "platform"; Some("platform")
    else
      assert forall j :: 0 <= j < |ks| ==> ks[j] in {"agency", "publisher", "brand", "region", "platform"};
      None
  }

  /** `generate_af_links(network_id, platform, parsed)` against the two tables. */
  function GenerateAfLinks(networkId: string, platform: string, parsed: Record, net: Table, app: Table)
    : (r: Result<Links, Failure>)
    ensures r.Err? <==> FirstMissing(parsed).Some?
    ensures r.Err? ==> r.error == MissingKey(FirstMissing(parsed).value)
    ensures r.Ok? ==>
      var clickBase := AppBase(app, AppKey(parsed), "click", DefaultClickBase);
      var impBase := AppBase(app, AppKey(parsed), "imp", DefaultImpBase);
      if !HasEntry(net, NetworkKey(parsed)) then
        r.value == Links(clickBase, impBase, [])
      else
        var entry := net[NetworkKey(parsed)];
        && r.value.click == clickBase + Substitute(GetOr(entry, Ascii.Lower(platform) + "click", ""), parsed)
        && r.value.imp == impBase + Substitute(GetOr(entry, Ascii.Lower(platform) + "imp", ""), parsed)
        && r.value.shown == (if HasEntry(app, AppKey(parsed)) then [] else [NoAppEntry(AppKey(parsed))])
  {
    if Lookup(parsed, "agency").None? then Err(MissingKey("agency"))
    else if Lookup(parsed, "publisher").None? then Err(MissingKey("publisher"))
    else
      var networkSearchKey := Ascii.Upper(FieldText(parsed, "agency") + FieldText(parsed, "publisher"));
      var networkFound := HasEntry(net, networkSearchKey);
      var warnings := if networkFound then [] else [NoNetworkEntry(networkId)];
      if Lookup(parsed, "brand").None? then Err(MissingKey("brand"))
      else if Lookup(parsed, "region").None? then Err(MissingKey("region"))
      else if Lookup(parsed, "platform").None? then Err(MissingKey("platform"))
      else
        var platformKey := FieldText(parsed, "brand") + "-" + FieldText(parsed, "region") + "-" + FieldText(parsed, "platform");
        var appFound := HasEntry(app, platformKey);
        var collected := if appFound then warnings else warnings + [NoAppEntry(platformKey)];
        var appEntry := if appFound then app[platformKey] else map[];
        var clickBase := GetOr(appEntry, "click", DefaultClickBase);
        var impBase := GetOr(appEntry, "imp", DefaultImpBase);
        if !networkFound then Ok(Links(clickBase, impBase, []))
        else
          var networkEntry := net[networkSearchKey];
          var clickTemplate := Substitute(GetOr(networkEntry, Ascii.Lower(platform) + "click", ""), parsed);
          var impTemplate := Substitute(GetOr(networkEntry, Ascii.Lower(platform) + "imp", ""), parsed);
          var finalClick := if clickTemplate != "" then clickBase + clickTemplate else clickBase;
          var finalImp := if impTemplate != "" then impBase + impTemplate else impBase;
          AppendEmpty(clickBase);
          AppendEmpty(impBase);
          Ok(Links(finalClick, finalImp, collected))
  }

  lemma AppendEmpty(a: string)
    ensures a + "" == a
  {
  }

  /** Whatever the tables hold, the returned URLs start with the app table's
      base URLs (or their defaults), and the missing-network warning is
      never shown: the early return drops it. */
  lemma LinksExtendBases(networkId: string, platform: string, parsed: Record, net: Table, app: Table)
    requires GenerateAfLinks(networkId, platform, parsed, net, app).Ok?
    ensures var links := GenerateAfLinks(networkId, platform, parsed, net, app).value;
      && AppBase(app, AppKey(parsed), "click", DefaultClickBase) <= links.click
      && AppBase(app, AppKey(parsed), "imp", DefaultImpBase) <= links.imp
      && NoNetworkEntry(networkId) !in links.shown
  {
  }

  /** The only warning ever shown is a missing app entry, and it is shown
      exactly when the network entry exists and the app entry does not. */
  lemma ShownWarnings(networkId: string, platform: string, parsed: Record, net: Table, app: Table)
    requires GenerateAfLinks(networkId, platform, parsed, net, app).Ok?
    ensures var shown := GenerateAfLinks(networkId, platform, parsed, net, app).value.shown;
      |shown| <= 1 && forall k :: 0 <= k < |shown| ==> shown[k].NoAppEntry?
    ensures var shown := GenerateAfLinks(networkId, platform, parsed, net, app).value.shown;
      && (shown == [] || shown == [NoAppEntry(AppKey(parsed))])
      && (shown != [] <==> HasEntry(net, NetworkKey(parsed)) && !HasEntry(app, AppKey(parsed)))
  {
  }

  /** The template is chosen by the lower-cased platform, so the platform
      argument's case does not matter. */
  lemma PlatformCaseIgnored(networkId: string, p1: string, p2: string, parsed: Record, net: Table, app: Table)
    requires Ascii.Lower(p1) == Ascii.Lower(p2)
    ensures GenerateAfLinks(networkId, p1, parsed, net, app) == GenerateAfLinks(networkId, p2, parsed, net, app)
  {
  }

  /** A template in which no string-valued field's placeholder occurs comes
      back unchanged. */
  lemma {:induction false} SubstituteNoPlaceholder(t: string, rec: Record)
    requires forall i :: 0 <= i < |rec| && rec[i].1.Str? ==> Find(t, Placeholder(rec[i].0)).None?
    ensures Substitute(t, rec) == t
    decreases |rec|
  {
    if |rec| > 0 {
      if rec[0].1.Str? {
        ReplaceAbsent(t, Placeholder(rec[0].0), rec[0].1.s);
      }
      SubstituteNoPlaceholder(t, rec[1..]);
    }
  }

  /** The string-valued items of a record, in order. */
  function StringItems(rec: Record): (r: Record)
    ensures forall i :: 0 <= i < |r| ==> r[i].1.Str? && r[i] in rec
    ensures forall i :: 0 <= i < |rec| && rec[i].1.Str? ==> rec[i] in r
    decreases |rec|
  {
    if |rec| == 0 then []
    else if rec[0].1.Str? then [rec[0]] + StringItems(rec[1..])
    else StringItems(rec[1..])
  }

  /** `StringItems` is the order-preserving filter: it distributes over
      concatenation and keeps a single item exactly when it is a string. */
  lemma {:induction false} StringItemsFilter(a: Record, b: Record)
    ensures StringItems(a + b) == StringItems(a) + StringItems(b)
    ensures |a| == 1 ==> StringItems(a) == (if a[0].1.Str? then a else [])
    decreases |a|
  {
    if |a| == 1 {
      assert StringItems(a[1..]) == [];
    }
    if |a| > 0 {
      assert (a + b)[1..] == a[1..] + b;
      StringItemsFilter(a[1..], b);
    } else {
      assert a + b == b;
    }
  }

  /** Fields whose value is not a string play no part in substitution. */
  lemma {:induction false} SubstituteSkipsNonStrings(t: string, rec: Record)
    ensures Substitute(t, rec) == Substitute(t, StringItems(rec))
    decreases |rec|
  {
    if |rec| > 0 {
      if rec[0].1.Str? {
        var t' := ReplaceAll(t, Placeholder(rec[0].0), rec[0].1.s);
        SubstituteSkipsNonStrings(t', rec[1..]);
        assert ([rec[0]] + StringItems(rec[1..]))[1..] == StringItems(rec[1..]);
      } else {
        SubstituteSkipsNonStrings(t, rec[1..]);
      }
    }
  }

  predicate BraceFree(k: string)
  {
    '{' !in k && '}' !in k
  }

  /** A placeholder occurrence starts with `{`. */
  lemma NoOccurrenceStart(s: string, i: nat, k: string)
    requires i < |s| && s[i] != '{'
    ensures !OccursAt(s, i, Placeholder(k))
  {
    if i + |k| + 2 <= |s| {
      assert s[i..i + |k| + 2][0] == s[i];
    }
  }

  /** A placeholder occurrence ends with `}`. */
  lemma NoOccurrenceEnd(s: string, i: nat, k: string)
    requires i + |k| + 1 < |s| && s[i + |k| + 1] != '}'
    ensures !OccursAt(s, i, Placeholder(k))
  {
    assert s[i..i + |k| + 2][|k| + 1] == s[i + |k| + 1];
  }

  /** A placeholder of a brace-free key has no brace strictly inside it. */
  lemma NoOccurrenceInterior(s: string, i: nat, k: string, m: nat)
    requires BraceFree(k) && i < m <= i + |k| && m < |s| && (s[m] == '{' || s[m] == '}')
    ensures !OccursAt(s, i, Placeholder(k))
  {
    if i + |k| + 2 <= |s| {
      assert s[i..i + |k| + 2][m - i] == s[m];
      assert Placeholder(k)[m - i] == k[m - i - 1];
    }
  }

  /** Distinct keys have distinct placeholders. */
  lemma PlaceholderInjective(z: string, k: string)
    ensures Placeholder(z) == Placeholder(k) ==> z == k
  {
    assert Placeholder(z)[1..|z| + 1] == z;
    assert Placeholder(k)[1..|k| + 1] == k;
  }

  /** No occurrence of `{k}` crosses the start of `{z}`. */
  lemma NoStraddleBeforePlaceholder(pre: string, rest: string, k: string)
    requires BraceFree(k) && |rest| > 0 && rest[0] == '{'
    ensures NoStraddle(pre, rest, Placeholder(k))
  {
    var pk := Placeholder(k);
    var s := pre + rest;
    assert s[|pre|] == '{';
    forall i: nat | i < |pre| < i + |pk|
      ensures !OccursAt(s, i, pk)
    {
      if |pre| <= i + |k| {
        NoOccurrenceInterior(s, i, k, |pre|);
      } else {
        NoOccurrenceEnd(s, i, k);
      }
    }
  }

  /** No occurrence of `{k}` crosses the end of `{z}`. */
  lemma NoStraddleAfterPlaceholder(post: string, z: string, k: string)
    requires BraceFree(z) && BraceFree(k)
    ensures NoStraddle(Placeholder(z), post, Placeholder(k))
  {
    var pz, pk := Placeholder(z), Placeholder(k);
    var s := pz + post;
    forall i: nat | i < |pz| < i + |pk|
      ensures !OccursAt(s, i, pk)
    {
      if i > 0 {
        assert s[i] == pz[i];
        NoOccurrenceStart(s, i, k);
      } else {
        assert s[|z| + 1] == '}';
        NoOccurrenceInterior(s, 0, k, |z| + 1);
      }
    }
  }

  /** `{k}` does not occur inside `{z}` for a different brace-free key. */
  lemma PlaceholderNotInOther(z: string, k: string)
    requires BraceFree(z) && BraceFree(k) && z != k
    ensures Find(Placeholder(z), Placeholder(k)).None?
  {
    var pz, pk := Placeholder(z), Placeholder(k);
    PlaceholderInjective(z, k);
    forall i: nat | i + |pk| <= |pz|
      ensures !OccursAt(pz, i, pk)
    {
      if i > 0 {
        NoOccurrenceStart(pz, i, k);
      } else if |k| < |z| {
        assert pz[|k| + 1] == z[|k|];
        NoOccurrenceEnd(pz, 0, k);
      } else {
        assert pz[0..|pk|] == pz;
      }
    }
    FindIsLeftmost(pz, pk);
  }

  /** Replacing the placeholder of one brace-free key never touches the
      placeholder of a different brace-free key. */
  lemma ReplaceKeepsOtherPlaceholder(pre: string, post: string, z: string, k: string, v: string)
    requires BraceFree(z) && BraceFree(k) && z != k
    ensures ReplaceAll(pre + Placeholder(z) + post, Placeholder(k), v)
         == ReplaceAll(pre, Placeholder(k), v) + Placeholder(z) + ReplaceAll(post, Placeholder(k), v)
  {
    var pz := Placeholder(z);
    assert (pz + post)[0] == '{';
    NoStraddleBeforePlaceholder(pre, pz + post, k);
    NoStraddleAfterPlaceholder(post, z, k);
    PlaceholderNotInOther(z, k);
    ReplaceAroundMiddle(pre, pz, post, Placeholder(k), v);
  }

  /** A placeholder naming no string-valued field survives substitution
      verbatim, and the text on either side is substituted independently. */
  lemma {:induction false} SubstituteKeepsUnknownPlaceholder(pre: string, post: string, z: string, rec: Record)
    requires BraceFree(z)
    requires forall i :: 0 <= i < |rec| && rec[i].1.Str? ==> rec[i].0 != z && BraceFree(rec[i].0)
    ensures Substitute(pre + Placeholder(z) + post, rec)
         == Substitute(pre, rec) + Placeholder(z) + Substitute(post, rec)
    decreases |rec|
  {
    if |rec| > 0 {
      var (k, v) := rec[0];
      if v.Str? {
        ReplaceKeepsOtherPlaceholder(pre, post, z, k, v.s);
        SubstituteKeepsUnknownPlaceholder(ReplaceAll(pre, Placeholder(k), v.s), ReplaceAll(post, Placeholder(k), v.s), z, rec[1..]);
      } else {
        SubstituteKeepsUnknownPlaceholder(pre, post, z, rec[1..]);
      }
    }
  }

  /** Substitution is a fold, not a single pass: a value inserted for an
      earlier field is scanned again for the placeholders of later fields. */
  lemma SubstitutionRescansValues()
    ensures Substitute("{a}", [("a", Str("{b}")), ("b", Str("x"))]) == "x"
  {
    assert ReplaceAll("{a}", "{a}", "{b}") == "{b}";
    assert ReplaceAll("{b}", "{b}", "x") == "x";
  }
}

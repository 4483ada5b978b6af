/** The placement code (a `-`-join of sixteen fields) and the click tag
    (the landing page with fixed query parameters), app.py lines 252-259. */
module Placement {
  import opened Wrappers
  import opened Fields
  import Text
  import Ascii

  /** The sixteen fields of a placement code, in the order they are joined. */
  const PlacementKeys: seq<string> := [
    "brand", "region", "platform", "campaign",
    "budget_code", "agency", "buying_platform", "publisher",
    "publisher_subsite", "targeting", "vertical", "offer",
    "ams_id", "video_format", "subtargeting", "x_field"
  ]

  /** The list display `[parsed[k] for k in keys]`, evaluated left to right:
      the first absent key raises KeyError. */
  function LookupAll(rec: Record, keys: seq<string>): (r: Result<seq<Value>, Failure>)
    ensures r.Ok? <==> forall j :: 0 <= j < |keys| ==> Lookup(rec, keys[j]).Some?
    ensures r.Ok? ==> (|r.value| == |keys| &&
                       forall j :: 0 <= j < |keys| ==> Lookup(rec, keys[j]) == Some(r.value[j]))
    ensures r.Err? ==> (exists j :: (0 <= j < |keys| && r.error == MissingKey(keys[j]) &&
                                     Lookup(rec, keys[j]).None? &&
                                     forall j' :: 0 <= j' < j ==> Lookup(rec, keys[j']).Some?))
    decreases |keys|
  {
    if |keys| == 0 then Ok([])
    else match Lookup(rec, keys[0])
      case None => Err(MissingKey(keys[0]))
      case Some(v) =>
        match LookupAll(rec, keys[1..])
        case Err(e) =>
          assert forall j :: 1 <= j < |keys| ==> keys[1..][j - 1] == keys[j];
          Err(e)
        case Ok(vs) => Ok([v] + vs)
  }

  /** The type check `str.join` makes: item by item, the first non-string
      raises TypeError naming its index. `offset` is the index of `vals[0]`. */
  function AllStrings(vals: seq<Value>, offset: nat): (r: Result<seq<string>, Failure>)
    ensures r.Ok? <==> forall j :: 0 <= j < |vals| ==> vals[j].Str?
    ensures r.Ok? ==> (|r.value| == |vals| &&
                       forall j :: 0 <= j < |vals| ==> vals[j] == Str(r.value[j]))
    ensures r.Err? ==> (exists j :: (0 <= j < |vals| && !vals[j].Str? &&
                                     r.error == NotAString(offset + j, vals[j].kind) &&
                                     forall j' :: 0 <= j' < j ==> vals[j'].Str?))
    decreases |vals|
  {
    if |vals| == 0 then Ok([])
    else match vals[0]
      case Other(k, _) => Err(NotAString(offset, k))
      case Str(s) =>
        match AllStrings(vals[1..], offset + 1)
        case Err(e) =>
          assert forall j :: 1 <= j < |vals| ==> vals[1..][j - 1] == vals[j];
          Err(e)
        case Ok(ss) => Ok([s] + ss)
  }

  /** `parsed[key]` is present and holds a string. */
  predicate HasString(rec: Record, key: string)
  {
    Lookup(rec, key).Some? && Lookup(rec, key).value.Str?
  }

  /** The string bound to `key`, or the empty string when there is none. */
  function StringOf(rec: Record, key: string): string
  {
    match Lookup(rec, key)
    case Some(Str(s)) => s
    case _ => ""
  }

  /** The sixteen placement fields of a record, as strings, or the exception
      building the list or joining it raises. */
  function PlacementFields(rec: Record): Result<seq<string>, Failure>
  {
    match LookupAll(rec, PlacementKeys)
    case Err(e) => Err(e)
    case Ok(vals) => AllStrings(vals, 0)
  }

  /** The strings bound to `keys`, in order, when every key holds a string. */
  lemma StringFieldsOk(rec: Record, keys: seq<string>)
    ensures (LookupAll(rec, keys).Ok? && AllStrings(LookupAll(rec, keys).value, 0).Ok?)
            <==> forall j :: 0 <= j < |keys| ==> HasString(rec, keys[j])
    ensures LookupAll(rec, keys).Ok? && AllStrings(LookupAll(rec, keys).value, 0).Ok? ==>
            AllStrings(LookupAll(rec, keys).value, 0).value
            == seq(|keys|, j requires 0 <= j < |keys| => StringOf(rec, keys[j]))
  {
    var la := LookupAll(rec, keys);
    if la.Ok? {
      var st := AllStrings(la.value, 0);
      if st.Ok? {
        assert forall j :: 0 <= j < |keys| ==> Lookup(rec, keys[j]) == Some(Str(st.value[j]));
      } else {
        var j :| 0 <= j < |la.value| && !la.value[j].Str?;
        assert !HasString(rec, keys[j]);
      }
    } else {
      var j :| 0 <= j < |keys| && Lookup(rec, keys[j]).None?;
      assert !HasString(rec, keys[j]);
    }
  }

  /** `"-".join([...])` over the sixteen placement fields: it succeeds exactly
      when all sixteen are present strings, and then joins them in the fixed order. */
  function PlacementCode(rec: Record): (r: Result<string, Failure>)
    ensures r.Ok? <==> forall j :: 0 <= j < |PlacementKeys| ==> HasString(rec, PlacementKeys[j])
    ensures r.Ok? ==> r.value == Text.Join(seq(|PlacementKeys|, j requires 0 <= j < |PlacementKeys| => StringOf(rec, PlacementKeys[j])), '-')
    ensures r.Err? ==> r.error.MissingKey? || r.error.NotAString?
  {
    StringFieldsOk(rec, PlacementKeys);
    match LookupAll(rec, PlacementKeys)
    case Err(e) => Err(e)
    case Ok(vals) =>
      match AllStrings(vals, 0)
      case Err(e) => Err(e)
      case Ok(fields) => Ok(Text.Join(fields, '-'))
  }

  /** Which exception a failing placement code reports: KeyError for the
      first absent key in the fixed order, otherwise TypeError for the first
      item that is not a string. */
  lemma PlacementCodeFailure(rec: Record)
    requires PlacementCode(rec).Err?
    ensures PlacementCode(rec).error.MissingKey? ==>
      var k := PlacementCode(rec).error.key;
      exists j :: (0 <= j < |PlacementKeys| && k == PlacementKeys[j] && Lookup(rec, k).None? &&
                   forall j' :: 0 <= j' < j ==> Lookup(rec, PlacementKeys[j']).Some?)
    ensures PlacementCode(rec).error.NotAString? ==>
      var i := PlacementCode(rec).error.index;
      i < |PlacementKeys| &&
      (forall j :: 0 <= j < |PlacementKeys| ==> Lookup(rec, PlacementKeys[j]).Some?) &&
      Lookup(rec, PlacementKeys[i]).value.Other? &&
      Lookup(rec, PlacementKeys[i]).value.kind == PlacementCode(rec).error.kind &&
      (forall j :: 0 <= j < i ==> HasString(rec, PlacementKeys[j]))
  {
  }

  /** When no field contains a dash, splitting the placement code on `-`
      gives back the sixteen fields, in order. */
  lemma PlacementCodeSplits(rec: Record)
    requires PlacementCode(rec).Ok?
    requires forall j :: 0 <= j < |PlacementKeys| ==> '-' !in StringOf(rec, PlacementKeys[j])
    ensures var parts := Text.Split(PlacementCode(rec).value, '-');
      |parts| == |PlacementKeys| &&
      forall j :: 0 <= j < |PlacementKeys| ==> Lookup(rec, PlacementKeys[j]) == Some(Str(parts[j]))
  {
    var fields := seq(|PlacementKeys|, j requires 0 <= j < |PlacementKeys| => StringOf(rec, PlacementKeys[j]));
    Text.SplitJoin(fields, '-');
  }

  /** The placement code depends on which items a record holds, never on
      the order they were inserted in. */
  lemma PlacementIgnoresOrder(a: Record, b: Record)
    requires DistinctKeys(a) && DistinctKeys(b)
    requires forall e :: e in a <==> e in b
    ensures PlacementCode(a) == PlacementCode(b)
  {
    forall j | 0 <= j < |PlacementKeys|
      ensures Lookup(a, PlacementKeys[j]) == Lookup(b, PlacementKeys[j])
    {
      LookupIgnoresOrder(a, b, PlacementKeys[j]);
    }
    LookupAllCongruent(a, b, PlacementKeys);
  }

  /** Records that agree on a list of keys agree on `LookupAll` of it. */
  lemma {:induction false} LookupAllCongruent(a: Record, b: Record, keys: seq<string>)
    requires forall j :: 0 <= j < |keys| ==> Lookup(a, keys[j]) == Lookup(b, keys[j])
    ensures LookupAll(a, keys) == LookupAll(b, keys)
    decreases |keys|
  {
    if |keys| > 0 {
      LookupAllCongruent(a, b, keys[1..]);
    }
  }

  /** Query-string parameters: `name=value` pairs joined by `&`. */
  function Query(params: seq<(string, string)>): string
  {
    Text.Join(seq(|params|, i requires 0 <= i < |params| => params[i].0 + "=" + params[i].1), '&')
  }

  /** The click tag: the landing page followed by exactly these parameters,
      in this order. */
  function ClickTagParams(amsId: string, publisher: string, campaign: string): seq<(string, string)>
  {
    [("source", amsId), ("utm_medium", "display"), ("utm_source", Ascii.Lower(publisher)),
     ("utm_campaign", Ascii.Lower(campaign)), ("review", "true")]
  }

  /** The click tag of app.py line 259: the landing page, `?`, then the
      five parameters. `lpUrl` is the f-string rendering of `parsed['lp_url']`. */
  function ClickTag(lpUrl: string, amsId: string, publisher: string, campaign: string): (r: string)
    ensures r == lpUrl + "?" + Query(ClickTagParams(amsId, publisher, campaign))
  {
    ClickTagIsQuery(amsId, publisher, campaign);
    lpUrl + "?" + (("source=" + amsId) + "&" + "utm_medium=display" + "&" + ("utm_source=" + Ascii.Lower(publisher))
                   + "&" + ("utm_campaign=" + Ascii.Lower(campaign)) + "&" + "review=true")
  }

  /** The query items of a click tag, one `name=value` string per parameter. */
  function ClickTagItems(amsId: string, publisher: string, campaign: string): seq<string>
  {
    ["source=" + amsId, "utm_medium=display", "utm_source=" + Ascii.Lower(publisher),
     "utm_campaign=" + Ascii.Lower(campaign), "review=true"]
  }

  /** A five-item join, written out. */
  lemma JoinFive(a: string, b: string, c: string, d: string, e: string, sep: char)
    ensures Text.Join([a, b, c, d, e], sep) == a + [sep] + b + [sep] + c + [sep] + d + [sep] + e
  {
    assert [a, b, c, d, e][1..] == [b, c, d, e];
    assert [b, c, d, e][1..] == [c, d, e];
    assert [c, d, e][1..] == [d, e];
    assert [d, e][1..] == [e];
    var de := d + [sep] + e;
    assert Text.Join([d, e], sep) == de;
    var cde := c + [sep] + de;
    assert Text.Join([c, d, e], sep) == cde;
    var bcde := b + [sep] + cde;
    assert Text.Join([b, c, d, e], sep) == bcde;
    assert Text.Join([a, b, c, d, e], sep) == a + [sep] + bcde;
  }

  /** Written out, the click-tag query is its five items joined by `&`. */
  lemma ClickTagIsQuery(amsId: string, publisher: string, campaign: string)
    ensures Query(ClickTagParams(amsId, publisher, campaign)) == Text.Join(ClickTagItems(amsId, publisher, campaign), '&')
    ensures Text.Join(ClickTagItems(amsId, publisher, campaign), '&')
         == ("source=" + amsId) + "&" + "utm_medium=display" + "&" + ("utm_source=" + Ascii.Lower(publisher))
            + "&" + ("utm_campaign=" + Ascii.Lower(campaign)) + "&" + "review=true"
  {
    var ps := ClickTagParams(amsId, publisher, campaign);
    var items := ClickTagItems(amsId, publisher, campaign);
    var built := seq(|ps|, i requires 0 <= i < |ps| => ps[i].0 + "=" + ps[i].1);
    forall i | 0 <= i < |items|
      ensures built[i] == items[i]
    {
    }
    assert built == items;
    JoinFive(items[0], items[1], items[2], items[3], items[4], '&');
    assert items == [items[0], items[1], items[2], items[3], items[4]];
  }

  /** When the AMS ID, publisher and campaign contain no `&`, the text after
      the landing page's `?` splits on `&` into the five parameters. */
  lemma ClickTagSplits(lpUrl: string, amsId: string, publisher: string, campaign: string)
    requires '&' !in amsId && '&' !in publisher && '&' !in campaign
    ensures var tag := ClickTag(lpUrl, amsId, publisher, campaign);
      Text.Split(tag[|lpUrl| + 1..], '&') == ClickTagItems(amsId, publisher, campaign)
  {
    var items := ClickTagItems(amsId, publisher, campaign);
    var tag := ClickTag(lpUrl, amsId, publisher, campaign);
    ClickTagIsQuery(amsId, publisher, campaign);
    assert tag[|lpUrl| + 1..] == Text.Join(items, '&');
    assert '&' !in Ascii.Lower(publisher) by {
      forall i | 0 <= i < |publisher| ensures Ascii.Lower(publisher)[i] != '&' { }
    }
    assert '&' !in Ascii.Lower(campaign) by {
      forall i | 0 <= i < |campaign| ensures Ascii.Lower(campaign)[i] != '&' { }
    }
    assert forall j :: 0 <= j < |items| ==> '&' !in items[j];
    Text.SplitJoin(items, '&');
  }
}

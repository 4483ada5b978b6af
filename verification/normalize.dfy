/** Normalisation of suggested campaign fields (app.py lines 62-100 and
    148-159): brand and region go through a code table and are upper-cased,
    platform goes through its code table only, and publisher, buying
    platform and vertical are upper-cased. Absent fields stay absent. */
module Normalize {
  import opened Wrappers
  import opened Fields
  import Ascii

  const BrandMap: map<string, string> := map[
    "Pokerstars" := "PS",
    "Full Tilt" := "FT",
    "Pokerstars Play" := "PPLAY",
    "Pokerstars Casino" := "PC",
    "FoxBet" := "FXB",
    "SkyBet" := "SB",
    "Sport" := "SPORT",
    "Pokerstars Sports" := "PSS",
    "Masterbrand" := "MB",
    "Pokerstars Dojo" := "PSDJ",
    "Pokerstars News" := "PSN"
  ]

  const RegionMap: map<string, string> := map[
    "Canada" := "CA",
    "France" := "FR",
    "Germany" := "DE",
    "Spain" := "ES",
    "United Kingdom" := "UK",
    "European Union" := "EU",
    "Brazil" := "BR",
    "Denmark" := "DK",
    "Romania" := "RO",
    "Ontario" := "CAON",
    "Pennsylvania" := "USPA",
    "New Jersey" := "USNJ",
    "Michigan" := "USMI"
  ]

  const PlatformMap: map<string, string> := map[
    "iOS" := "iOS",
    "Android" := "AND",
    "Desktop" := "DESK",
    "Mobile Web" := "MOB",
    "All Devices" := "DIS"
  ]

  /** The suggested fields that are normalised, in the order the source does it. */
  const NormalizedKeys: seq<string> := ["brand", "region", "platform", "publisher", "buying_platform", "vertical"]

  /** The three code tables, as one value so that the rules can be stated
      for any tables and the source's tables plugged in at the end. */
  datatype CodeTables = CodeTables(brand: map<string, string>, region: map<string, string>, platform: map<string, string>)

  const SourceTables: CodeTables := CodeTables(BrandMap, RegionMap, PlatformMap)

  /** `m.get(s, s)`. */
  function MapGet(m: map<string, string>, s: string): string
  {
    if s in m then m[s] else s
  }

  /** The exception normalisation raises: the field being normalised held a
      value of this kind (`.upper()` on a non-string, or a list or dict used
      as a table key). */
  datatype NormError = NormError(field: string, kind: Kind)

  /** One of the six fields the block rewrites. */
  predicate IsNormalizedKey(key: string)
  {
    key == "brand" || key == "region" || key == "platform" ||
    key == "publisher" || key == "buying_platform" || key == "vertical"
  }

  /** A value the rule for `key` accepts: a string, or for platform any
      value that can be looked up in a dict. */
  predicate Acceptable(key: string, v: Value)
  {
    v.Str? || (key == "platform" && Hashable(v))
  }

  /** The rule applied to one present field: it fails exactly on a
      non-string the field's operation cannot take, and the failure names
      the field and the kind of value found there. */
  function NormalizeValue(t: CodeTables, key: string, v: Value): (r: Result<Value, NormError>)
    ensures r.Err? <==> IsNormalizedKey(key) && !Acceptable(key, v)
    ensures r.Err? ==> r.error == NormError(key, v.kind)
    ensures r.Ok? && !IsNormalizedKey(key) ==> r.value == v
  {
    if key == "brand" || key == "region" then
      match v
      case Str(s) => Ok(Str(Ascii.Upper(MapGet(if key == "brand" then t.brand else t.region, s))))
      case Other(k, _) => Err(NormError(key, k))
    else if key == "platform" then
      match v
      case Str(s) => Ok(Str(MapGet(t.platform, s)))
      case Other(k, _) => if Hashable(v) then Ok(v) else Err(NormError(key, k))
    else if key == "publisher" || key == "buying_platform" || key == "vertical" then
      match v
      case Str(s) => Ok(Str(Ascii.Upper(s)))
      case Other(k, _) => Err(NormError(key, k))
    else Ok(v)
  }

  /** `if key in suggested: suggested[key] = <rule>(suggested[key])`. */
  function NormalizeField(t: CodeTables, rec: Record, key: string): (r: Result<Record, NormError>)
    ensures r.Ok? <==> Lookup(rec, key).None? || NormalizeValue(t, key, Lookup(rec, key).value).Ok?
    ensures r.Err? ==> Lookup(rec, key).Some? && r.error == NormalizeValue(t, key, Lookup(rec, key).value).error
    ensures r.Ok? ==> |r.value| == |rec| && forall i :: 0 <= i < |rec| ==> r.value[i].0 == rec[i].0
    ensures r.Ok? ==> forall k :: k != key ==> Lookup(r.value, k) == Lookup(rec, k)
    ensures r.Ok? && Lookup(rec, key).None? ==> Lookup(r.value, key).None?
    ensures r.Ok? && Lookup(rec, key).Some? ==>
      Lookup(r.value, key) == Some(NormalizeValue(t, key, Lookup(rec, key).value).value)
  {
    match Lookup(rec, key)
    case None => Ok(rec)
    case Some(v) =>
      match NormalizeValue(t, key, v)
      case Err(e) => Err(e)
      case Ok(nv) => Ok(Set(rec, key, nv))
  }

  /** No key is listed twice. */
  predicate Distinct(keys: seq<string>)
  {
    forall i, j :: 0 <= i < j < |keys| ==> keys[i] != keys[j]
  }

  /** A present field whose value the rule for its key rejects. */
  predicate Rejects(t: CodeTables, rec: Record, key: string)
  {
    Lookup(rec, key).Some? && NormalizeValue(t, key, Lookup(rec, key).value).Err?
  }

  /** The fields in `keys`, normalised one after the other; the first field
      the rule rejects stops the sequence. */
  function NormalizeAll(t: CodeTables, rec: Record, keys: seq<string>): (r: Result<Record, NormError>)
    requires Distinct(keys)
    ensures r.Ok? <==> forall j :: 0 <= j < |keys| ==> !Rejects(t, rec, keys[j])
    ensures r.Ok? ==> |r.value| == |rec| && forall i :: 0 <= i < |rec| ==> r.value[i].0 == rec[i].0
    decreases |keys|
  {
    if |keys| == 0 then Ok(rec)
    else
      match NormalizeField(t, rec, keys[0])
      case Err(e) => Err(e)
      case Ok(r1) =>
        assert Distinct(keys[1..]);
        assert forall j :: 1 <= j < |keys| ==> keys[1..][j - 1] == keys[j] && Rejects(t, r1, keys[j]) == Rejects(t, rec, keys[j]);
        NormalizeAll(t, r1, keys[1..])
  }

  /** On success, fields not in `keys` are untouched and each field in `keys`
      holds its rule's result (absent ones stay absent). */
  lemma {:induction false} NormalizeAllValues(t: CodeTables, rec: Record, keys: seq<string>)
    requires Distinct(keys) && NormalizeAll(t, rec, keys).Ok?
    ensures var r := NormalizeAll(t, rec, keys).value;
      && (forall k :: k !in keys ==> Lookup(r, k) == Lookup(rec, k))
      && (forall j :: 0 <= j < |keys| && Lookup(rec, keys[j]).None? ==> Lookup(r, keys[j]).None?)
      && (forall j :: 0 <= j < |keys| && Lookup(rec, keys[j]).Some? ==>
            Lookup(r, keys[j]) == Some(NormalizeValue(t, keys[j], Lookup(rec, keys[j]).value).value))
    decreases |keys|
  {
    if |keys| > 0 {
      var r1 := NormalizeField(t, rec, keys[0]).value;
      var tail := keys[1..];
      assert Distinct(tail);
      NormalizeAllValues(t, r1, tail);
      var r := NormalizeAll(t, rec, keys).value;
      assert r == NormalizeAll(t, r1, tail).value;
      forall j | 1 <= j < |keys|
        ensures keys[j] in tail && keys[j] != keys[0]
      {
        assert tail[j - 1] == keys[j];
      }
    }
  }

  /** On failure, the error is the first listed field the rule rejects. */
  lemma {:induction false} NormalizeAllError(t: CodeTables, rec: Record, keys: seq<string>)
    requires Distinct(keys) && NormalizeAll(t, rec, keys).Err?
    ensures exists j :: (0 <= j < |keys| && Rejects(t, rec, keys[j]) &&
                         NormalizeAll(t, rec, keys).error == NormalizeValue(t, keys[j], Lookup(rec, keys[j]).value).error &&
                         forall j' :: 0 <= j' < j ==> !Rejects(t, rec, keys[j']))
    decreases |keys|
  {
    if NormalizeField(t, rec, keys[0]).Err? {
      assert Rejects(t, rec, keys[0]);
    } else {
      var r1 := NormalizeField(t, rec, keys[0]).value;
      var tail := keys[1..];
      assert Distinct(tail);
      NormalizeAllError(t, r1, tail);
      var j :| 0 <= j < |tail| && Rejects(t, r1, tail[j]) &&
               NormalizeAll(t, r1, tail).error == NormalizeValue(t, tail[j], Lookup(r1, tail[j]).value).error &&
               forall j' :: 0 <= j' < j ==> !Rejects(t, r1, tail[j']);
      assert tail[j] == keys[j + 1] && keys[j + 1] != keys[0];
      forall j' | 0 <= j' < j + 1
        ensures !Rejects(t, rec, keys[j'])
      {
        if j' > 0 {
          assert tail[j' - 1] == keys[j'] && keys[j'] != keys[0];
        }
      }
    }
  }

  lemma NormalizedKeysDistinct()
    ensures Distinct(NormalizedKeys)
  {
    var ks := NormalizedKeys;
    assert ks[0][0] == 'b' && ks[1][0] == 'r' && ks[2][0] == 'p' && ks[3][0] == 'p' && ks[4][0] == 'b' && ks[5][0] == 'v';
    assert ks[2][1] == 'l' && ks[3][1] == 'u' && ks[0][1] == 'r' && ks[4][1] == 'u';
  }

  /** The normalisation block with the given tables: on success the
      suggestion keeps its keys, in order, every field the block does not
      name keeps its value, and absent fields stay absent. */
  function NormalizeWith(t: CodeTables, rec: Record): (r: Result<Record, NormError>)
    ensures r.Ok? ==> |r.value| == |rec| && forall i :: 0 <= i < |rec| ==> r.value[i].0 == rec[i].0
    ensures r.Ok? ==> forall k :: k !in NormalizedKeys ==> Lookup(r.value, k) == Lookup(rec, k)
    ensures r.Ok? ==> forall k :: Lookup(rec, k).None? ==> Lookup(r.value, k).None?
    ensures r.Err? ==> r.error.field in NormalizedKeys && Lookup(rec, r.error.field).Some?
  {
    NormalizedKeysDistinct();
    var r := NormalizeAll(t, rec, NormalizedKeys);
    if r.Ok? then
      NormalizeAllValues(t, rec, NormalizedKeys);
      r
    else
      NormalizeAllError(t, rec, NormalizedKeys);
      var j :| 0 <= j < |NormalizedKeys| && Rejects(t, rec, NormalizedKeys[j]) &&
               r.error == NormalizeValue(t, NormalizedKeys[j], Lookup(rec, NormalizedKeys[j]).value).error;
      r
  }

  /** The normalisation block of lines 148-159, with the source's tables. */
  function NormalizeSuggested(rec: Record): Result<Record, NormError>
  {
    NormalizeWith(SourceTables, rec)
  }

  /** The block succeeds exactly when every present normalised field holds
      a value its rule accepts. */
  lemma NormalizeSucceeds(t: CodeTables, rec: Record)
    ensures NormalizeWith(t, rec).Ok? <==>
      forall j :: 0 <= j < |NormalizedKeys| && Lookup(rec, NormalizedKeys[j]).Some? ==>
        Acceptable(NormalizedKeys[j], Lookup(rec, NormalizedKeys[j]).value)
  {
    NormalizedKeysDistinct();
    assert forall j :: 0 <= j < |NormalizedKeys| ==> IsNormalizedKey(NormalizedKeys[j]);
  }

  /** After a successful block, a present normalised field held a value
      its rule accepts and now holds that rule's result. */
  lemma NormalizedField(t: CodeTables, rec: Record, key: string)
    requires NormalizeWith(t, rec).Ok? && IsNormalizedKey(key)
    ensures Lookup(rec, key).None? ==> Lookup(NormalizeWith(t, rec).value, key).None?
    ensures Lookup(rec, key).Some? ==>
      (Acceptable(key, Lookup(rec, key).value) &&
       Lookup(NormalizeWith(t, rec).value, key) == Some(NormalizeValue(t, key, Lookup(rec, key).value).value))
  {
    NormalizedKeysDistinct();
    var j := if key == "brand" then 0 else if key == "region" then 1 else if key == "platform" then 2
             else if key == "publisher" then 3 else if key == "buying_platform" then 4 else 5;
    assert NormalizedKeys[j] == key;
    ListedField(t, rec, NormalizedKeys, j);
  }

  /** The same for the `j`-th of any list of distinct keys. */
  lemma ListedField(t: CodeTables, rec: Record, keys: seq<string>, j: nat)
    requires Distinct(keys) && NormalizeAll(t, rec, keys).Ok? && j < |keys|
    ensures Lookup(rec, keys[j]).None? ==> Lookup(NormalizeAll(t, rec, keys).value, keys[j]).None?
    ensures Lookup(rec, keys[j]).Some? ==>
      (!Rejects(t, rec, keys[j]) &&
       Lookup(NormalizeAll(t, rec, keys).value, keys[j]) == Some(NormalizeValue(t, keys[j], Lookup(rec, keys[j]).value).value))
  {
    NormalizeAllValues(t, rec, keys);
  }

  /** Brand and region end up as their table code, upper-cased. */
  lemma NormalizeBrandRegion(t: CodeTables, rec: Record)
    requires NormalizeWith(t, rec).Ok?
    ensures Lookup(rec, "brand").Some? ==>
      (Lookup(rec, "brand").value.Str? &&
       Lookup(NormalizeWith(t, rec).value, "brand") == Some(Str(Ascii.Upper(MapGet(t.brand, Lookup(rec, "brand").value.s)))))
    ensures Lookup(rec, "region").Some? ==>
      (Lookup(rec, "region").value.Str? &&
       Lookup(NormalizeWith(t, rec).value, "region") == Some(Str(Ascii.Upper(MapGet(t.region, Lookup(rec, "region").value.s)))))
  {
    NormalizedField(t, rec, "brand");
    NormalizedField(t, rec, "region");
  }

  /** Platform ends up as its table code without upper-casing; a
      non-string hashable platform is kept as it was. */
  lemma NormalizePlatform(t: CodeTables, rec: Record)
    requires NormalizeWith(t, rec).Ok?
    ensures Lookup(rec, "platform").Some? && Lookup(rec, "platform").value.Str? ==>
      Lookup(NormalizeWith(t, rec).value, "platform") == Some(Str(MapGet(t.platform, Lookup(rec, "platform").value.s)))
    ensures Lookup(rec, "platform").Some? && Lookup(rec, "platform").value.Other? ==>
      (Hashable(Lookup(rec, "platform").value) &&
       Lookup(NormalizeWith(t, rec).value, "platform") == Lookup(rec, "platform"))
  {
    NormalizedField(t, rec, "platform");
  }

  /** Publisher, buying platform and vertical are upper-cased in place. */
  lemma NormalizeFreeText(t: CodeTables, rec: Record, k: string)
    requires NormalizeWith(t, rec).Ok? && FreeTextKey(k)
    ensures Lookup(rec, k).Some? ==>
      (Lookup(rec, k).value.Str? &&
       Lookup(NormalizeWith(t, rec).value, k) == Some(Str(Ascii.Upper(Lookup(rec, k).value.s))))
  {
    NormalizedField(t, rec, k);
  }

  /** The three fields that are upper-cased without a table. */
  predicate FreeTextKey(k: string)
  {
    k == "publisher" || k == "buying_platform" || k == "vertical"
  }

  /** Tables whose output the block would not change again: no upper-cased
      text is a brand or region name, and every platform code maps to
      itself or is not a platform name. */
  ghost predicate StableTables(t: CodeTables)
  {
    && (forall x :: Ascii.Upper(x) !in t.brand)
    && (forall x :: Ascii.Upper(x) !in t.region)
    && (forall s :: MapGet(t.platform, MapGet(t.platform, s)) == MapGet(t.platform, s))
  }

  /** The source's tables are stable: every brand and region name has a
      lower-case letter in second position, and the platform codes are
      either no name or, for iOS, their own name. */
  lemma SourceTablesStable()
    ensures StableTables(SourceTables)
  {
    forall x
      ensures Ascii.Upper(x) !in BrandMap
    {
      UpperNotBrand(x);
    }
    forall x
      ensures Ascii.Upper(x) !in RegionMap
    {
      UpperNotRegion(x);
    }
    forall s
      ensures MapGet(PlatformMap, MapGet(PlatformMap, s)) == MapGet(PlatformMap, s)
    {
      PlatformCodeStable(s);
    }
  }

  /** Every platform code maps to itself or is not a platform name. */
  lemma PlatformCodeStable(s: string)
    ensures MapGet(PlatformMap, MapGet(PlatformMap, s)) == MapGet(PlatformMap, s)
  {
    if s in PlatformMap {
      assert PlatformMap[s] in {"iOS", "AND", "DESK", "MOB", "DIS"};
    }
  }

  lemma UpperNotBrand(x: string)
    ensures Ascii.Upper(x) !in BrandMap
  {
    if |x| > 1 {
      assert !Ascii.IsLower(Ascii.Upper(x)[1]);
    }
  }

  lemma UpperNotRegion(x: string)
    ensures Ascii.Upper(x) !in RegionMap
  {
    if |x| > 1 {
      assert !Ascii.IsLower(Ascii.Upper(x)[1]);
    }
  }


  /** Applying a field's rule to its own output changes nothing. */
  lemma NormalizeValueIdempotent(t: CodeTables, key: string, v: Value)
    requires StableTables(t) && NormalizeValue(t, key, v).Ok?
    ensures NormalizeValue(t, key, NormalizeValue(t, key, v).value) == NormalizeValue(t, key, v)
  {
    if v.Str? {
      Ascii.UpperIdempotent(MapGet(t.brand, v.s));
      Ascii.UpperIdempotent(MapGet(t.region, v.s));
      Ascii.UpperIdempotent(v.s);
    }
  }

  /** A record on which every listed rule is the identity is left as it is. */
  lemma {:induction false} NormalizeAllFixed(t: CodeTables, x: Record, keys: seq<string>)
    requires Distinct(keys)
    requires forall j :: 0 <= j < |keys| && Lookup(x, keys[j]).Some? ==>
      NormalizeValue(t, keys[j], Lookup(x, keys[j]).value) == Ok(Lookup(x, keys[j]).value)
    ensures NormalizeAll(t, x, keys) == Ok(x)
    decreases |keys|
  {
    if |keys| > 0 {
      assert NormalizeField(t, x, keys[0]) == Ok(x);
      assert Distinct(keys[1..]);
      assert forall j :: 1 <= j < |keys| ==> keys[1..][j - 1] == keys[j];
      NormalizeAllFixed(t, x, keys[1..]);
    }
  }

  /** With stable tables, normalising an already normalised suggestion
      leaves it unchanged. */
  lemma NormalizeWithIdempotent(t: CodeTables, rec: Record)
    requires StableTables(t) && NormalizeWith(t, rec).Ok?
    ensures NormalizeWith(t, NormalizeWith(t, rec).value) == NormalizeWith(t, rec)
  {
    NormalizedKeysDistinct();
    var ks := NormalizedKeys;
    var r := NormalizeWith(t, rec).value;
    NormalizeAllValues(t, rec, ks);
    forall j | 0 <= j < |ks| && Lookup(r, ks[j]).Some?
      ensures NormalizeValue(t, ks[j], Lookup(r, ks[j]).value) == Ok(Lookup(r, ks[j]).value)
    {
      var v := Lookup(rec, ks[j]).value;
      assert !Rejects(t, rec, ks[j]);
      NormalizeValueIdempotent(t, ks[j], v);
    }
    NormalizeAllFixed(t, r, ks);
  }

  /** With the source's tables, the block is idempotent. */
  lemma NormalizeIdempotent(rec: Record)
    requires NormalizeSuggested(rec).Ok?
    ensures NormalizeSuggested(NormalizeSuggested(rec).value) == NormalizeSuggested(rec)
  {
    SourceTablesStable();
    NormalizeWithIdempotent(SourceTables, rec);
  }
}

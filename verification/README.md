# Campaign link generator: a Dafny model of its link logic

`app.py` is a small web app for a marketing team. Campaign descriptions are
pasted one per line. A language model extracts a record of named fields from
each line. The app then derives four strings from that record:

- a **placement code**: sixteen fields joined by `-`;
- a **click tag**: the landing-page URL with fixed query parameters appended;
- two **tracking links** (AppsFlyer click and impression): a base URL taken
  from an app table, followed by a template from a network table in which
  every `{field}` placeholder is replaced by that field's value.

Any line whose processing raises becomes an `ERROR` row, and the batch
carries on. A separate "suggest fields" path normalises the extracted fields
against three small code tables (brand, region, platform).

This project models that logic as pure Dafny functions over immutable data.

- **Records.** An extracted record is a `seq` of `(key, value)` pairs in
  insertion order, because substitution is a fold over `parsed.items()`.
- **Values.** A value is a string or some other JSON value. A non-string
  value carries its kind and the text `str()` gives for it.
- **Tables.** The network and app tables are `map<string, map<string, string>>`
  parameters.
- **Extraction.** The language-model call is an abstract `Extractor`
  parameter. It returns a record or an error message.
- **Exceptions.** Python exceptions become `Result` values.
- **Case mapping.** Upper- and lower-casing are ASCII.

Modules:

- `Wrappers`: `Option` and `Result`.
- `Ascii`: case mapping.
- `Text`: join, split and strip.
- `Replace`: `str.replace`.
- `Fields`: the record, lookups and exception messages.
- `Normalize`: the code tables and the normalisation block.
- `AfLinks`: `generate_af_links`.
- `Placement`: the placement code and the click tag.
- `Batch`: the per-line loop.
- `Form`: `safe_index`.

Points where the code's behaviour is easy to misread, and which the model
follows exactly:

- **AMS ID.** `ams_id` is just an extracted string, inserted as it is.
- **Warnings.** The "no network entry" warning is collected but never shown.
  The early return at line 185 comes before the loop that displays
  warnings, so the model returns only the warnings actually shown. The
  batch collects them per line, in line order.
- **`if not entry`.** This test is also true for an entry that exists but is
  an empty object. `HasEntry` models it that way.
- **Template substitution.** Substitution rescans text inserted for earlier
  fields, since each field's `replace` runs on the output of the previous one.
- **Final URL.** The conditional at lines 198-199 makes no difference: the
  URL is always base followed by the substituted template.
- **Normalisation.** It is applied only on the suggestion path. The batch
  loop uses the extracted fields as they come.

## Model

| member | source | states |
|---|---|---|
| `Form.IndexOf` | app.py:106 | `list.index`: None exactly when the value is absent; otherwise the position holds the value and no earlier position does |
| `Form.SafeIndex` | app.py:104-108 | the first position of the value when it is among the options, otherwise the default |
| `Fields.Lookup` | app.py:148 | absent exactly when no item has the key; a found value is bound to the key by some item |
| `Fields.Set` | app.py:149 | assignment to a present key: keys and their order unchanged, that key now bound to the new value, every other key's lookup unchanged, no change when the value is already there |
| `Fields.LookupIgnoresOrder` | app.py:252-257 | two records holding the same items, each without repeated keys, give the same lookup for every key, whatever their order |
| `Normalize.NormalizeValue` | app.py:148-159 | the rule for one present field fails exactly when the field is normalised and its value is not acceptable (a non-string, except for a hashable platform); the failure names the field and the kind found; other fields are untouched |
| `Normalize.NormalizeField` | app.py:148-159 | `if key in suggested` then rewrite: an absent key changes nothing; a failure names a present field; on success only that key's value changes, to the rule's result |
| `Normalize.NormalizeAll` | app.py:148-159 | rewriting several fields in turn succeeds exactly when none of them is rejected, and keeps every key in place |
| `Normalize.NormalizeAllError` | app.py:148-159 | a failure is the rule's error for some listed field that is present and rejected |
| `Normalize.NormalizeWith` | app.py:148-159 | after the block, keys and their order are kept, fields the block does not name keep their values, absent fields stay absent; a failure names one of the six fields, which is present |
| `Normalize.NormalizeSucceeds` | app.py:148-159 | the block succeeds exactly when every present normalised field holds a value its rule accepts |
| `Normalize.NormalizedField` | app.py:148-159 | after a successful block, each of the six fields is absent when it was absent, and otherwise holds its rule's result |
| `Normalize.NormalizeBrandRegion` | app.py:148-151 | a present brand (region) is a string and becomes its brand (region) table code, or itself when unlisted, upper-cased |
| `Normalize.NormalizePlatform` | app.py:152-153 | a string platform becomes its table code, or itself when unlisted, with no case change; a non-string platform is kept as it was |
| `Normalize.NormalizeFreeText` | app.py:154-159 | a present publisher, buying platform or vertical is a string and is upper-cased |
| `Normalize.SourceTablesStable` | app.py:62-100 | the three code tables never rewrite their own output: no upper-cased text is a brand or region name, and every platform code maps to itself |
| `Normalize.NormalizeValueIdempotent` | app.py:148-159 | with stable tables, applying a field's rule to its own output changes nothing |
| `Normalize.NormalizeWithIdempotent` | app.py:148-159 | with stable tables, normalising an already normalised suggestion returns it unchanged |
| `Normalize.NormalizeIdempotent` | app.py:62-100 | with the app's own code tables, normalisation is idempotent |
| `Ascii.Upper` | app.py:149 | same length, no lower-case letter left, each character's case-insensitive identity kept, non-letters unchanged |
| `Ascii.Lower` | app.py:259 | same length, no upper-case letter left, each character's case-insensitive identity kept, non-letters unchanged |
| `Ascii.UpperIdempotent` | app.py:155 | upper-casing twice is upper-casing once |
| `Ascii.CaseOfConcat` | app.py:171-172 | case mapping distributes over concatenation, so the network key is the upper-cased agency followed by the upper-cased publisher |
| `Replace.FindIsLeftmost` | app.py:195 | the search finds the leftmost occurrence of the pattern, and reports none only when there is none |
| `Replace.ReplaceAbsent` | app.py:195 | `replace` of a pattern that does not occur returns the text unchanged |
| `Replace.ReplaceAtFirst` | app.py:195 | `replace` keeps the text before the first occurrence, inserts the value, and continues after the occurrence, so occurrences never overlap |
| `Replace.ReplaceAt` | app.py:195 | the same, for an occurrence given by position with none before it |
| `Replace.ReplaceBySelf` | app.py:195 | replacing a pattern by itself changes nothing |
| `Replace.ReplaceConcat` | app.py:195 | when no occurrence spans the boundary, replacing in a concatenation replaces in each part |
| `Replace.ReplaceAroundMiddle` | app.py:195 | a middle part that holds no occurrence and is straddled by none passes through `replace` unchanged |
| `AfLinks.Placeholder` | app.py:195 | the placeholder is the key between braces |
| `AfLinks.AppBase` | app.py:176-182 | the app entry's base URL when the entry is non-empty and has the field; the hardcoded default when the entry or the field is missing |
| `AfLinks.GenerateAfLinks` | app.py:169-204 | raises KeyError exactly when one of agency, publisher, brand, region, platform is absent, naming the first absent one in that reading order (`FirstMissing`); with no network entry, exactly the two bases and no warning shown; otherwise each URL is its base followed by the platform's template with placeholders substituted, and the only warning shown is a missing app entry |
| `AfLinks.FirstMissing` | app.py:171-175 | the key of the KeyError: None exactly when all five fields are present, otherwise the first absent one in the order agency, publisher, brand, region, platform |
| `AfLinks.LinksExtendBases` | app.py:181-202 | whatever the tables hold, each returned URL starts with its base URL, and the missing-network warning is never shown |
| `AfLinks.ShownWarnings` | app.py:173-202 | at most one warning is shown, about a missing app entry, and it is shown exactly when the network entry exists and the app entry does not |
| `AfLinks.PlatformCaseIgnored` | app.py:187-188 | platform arguments that agree after lower-casing give the same links |
| `AfLinks.SubstituteNoPlaceholder` | app.py:193-196 | a template holding no placeholder of a string-valued field comes back unchanged |
| `AfLinks.StringItems` | app.py:194 | every item kept is a string-valued item of the record, and every string-valued item is kept |
| `AfLinks.StringItemsFilter` | app.py:193-194 | the string-valued items are kept in record order: the filter distributes over concatenation and keeps a single item exactly when it is a string |
| `AfLinks.SubstituteSkipsNonStrings` | app.py:193-196 | substituting with a record equals substituting with its string-valued items only |
| `AfLinks.PlaceholderNotInOther` | app.py:195 | the placeholder of one brace-free key never occurs inside that of another |
| `AfLinks.ReplaceKeepsOtherPlaceholder` | app.py:195 | replacing one field's placeholder leaves another field's placeholder intact, and the text around it is replaced independently |
| `AfLinks.SubstituteKeepsUnknownPlaceholder` | app.py:193-196 | a placeholder naming no string-valued field survives substitution verbatim, and the text on each side is substituted on its own |
| `AfLinks.SubstitutionRescansValues` | app.py:193-196 | a value inserted for an earlier field is scanned again for later fields' placeholders |
| `Placement.LookupAll` | app.py:252-256 | the list display succeeds exactly when every key is present, giving the values in key order; otherwise KeyError names the first absent key |
| `Placement.AllStrings` | app.py:252 | `str.join` succeeds exactly when every item is a string; otherwise TypeError names the first non-string item's index and type |
| `Placement.StringFieldsOk` | app.py:252-257 | building and joining the list succeeds exactly when every key holds a string, and then yields those strings in key order |
| `Placement.PlacementCode` | app.py:252-257 | succeeds exactly when all sixteen fields are present strings, giving their `-`-join in the fixed order; otherwise KeyError or TypeError |
| `Placement.PlacementCodeFailure` | app.py:252-257 | KeyError names the first absent key in the fixed order; TypeError comes only when all sixteen are present, and names the first non-string field's index and type |
| `Placement.PlacementCodeSplits` | app.py:252-257 | when no field contains `-`, splitting the placement code on `-` gives back the sixteen fields in order |
| `Placement.PlacementIgnoresOrder` | app.py:252-257 | the placement code depends on a record's items, not on their order |
| `Placement.ClickTag` | app.py:259 | the landing page, `?`, then the query string of the five fixed parameters source, utm_medium, utm_source, utm_campaign, review, with publisher and campaign lower-cased |
| `Placement.ClickTagIsQuery` | app.py:259 | the click-tag query is its five `name=value` items joined by `&` |
| `Placement.ClickTagSplits` | app.py:259 | when the AMS ID, publisher and campaign contain no `&`, the text after the landing page's `?` splits on `&` into the five parameters |
| `Text.Split` | app.py:237 | at least one piece, and no piece contains the separator |
| `Text.JoinSplit` | app.py:237 | joining the pieces of a split with the separator gives back the text |
| `Text.SplitJoin` | app.py:252-257 | splitting a join of separator-free pieces gives back the pieces |
| `Text.JoinShowsSeparator` | app.py:252-257 | a join of two or more pieces contains the separator |
| `Text.Strip` | app.py:237 | the result is a contiguous slice of the text, with only whitespace removed before and after it, and it neither starts nor ends with whitespace |
| `Text.StripUntrimmed` | app.py:237 | a text that neither starts nor ends with whitespace is its own strip |
| `Batch.BuildRow` | app.py:252-269 | the row is built exactly when all sixteen placement fields are strings and `lp_url` is present; a placement-code exception comes first, then the `lp_url` KeyError; a built row is the input line, the placement code, the click tag of `lp_url`, AMS ID, publisher and campaign, and the click and impression links `generate_af_links` returns for the buying platform and platform |
| `Batch.RowRecoversFields` | app.py:252-269 | a built row gives its inputs back: with dash-free fields its placement code splits into the sixteen fields, and with `&`-free AMS ID, publisher and campaign its click tag's query splits into the five parameters |
| `Batch.PlacementCodeNotMarker` | app.py:252-273 | a placement code always contains `-`, so it is never the `ERROR` marker |
| `Batch.ProcessLine` | app.py:238-277 | every row keeps its input line; an extraction failure or a failure building the row gives the ERROR row carrying that exception's message and empty tracking links; otherwise the row is the built row; the placement is `ERROR` exactly in the failing cases |
| `Batch.LineSucceeds` | app.py:238-277 | a line yields links exactly when extraction succeeds, the sixteen placement fields are strings and a landing page is present |
| `Batch.LineWarnings` | app.py:201-202 | a line displays at most one warning, about a missing app entry |
| `Batch.LineWarns` | app.py:173-202 | a line displays a warning exactly when its row is built, its network entry exists and its app entry does not; the warning names the line's app key, and the line's row has links |
| `Batch.WarningsShape` | app.py:236-277 | a batch displays at most one warning per line, each about a missing app entry, and none exactly when no line displays one |
| `Batch.Lines` | app.py:237 | at least one line, and no line contains a newline |
| `Batch.GenerateLinks` | app.py:235-277 | nothing for empty input; otherwise one row per line of the stripped input, in order, each depending on its own line only, together with the warnings displayed line by line |
| `Batch.MapLines` | app.py:236-269 | the loop appends one row per line, in order, and each row is that line's outcome |
| `Batch.InputsReassemble` | app.py:237 | the Input column joined with newlines is the stripped input: no line is lost, split or reordered |

## Left out

- The Streamlit page is left out: layout, form, selectboxes, buttons, session state, `st.json`, `st.success`, `st.error`, `st.warning` and `st.dataframe` (app.py lines 1-3, 111-134, 161-165, 206-234, 280-281). It is presentation only. The warnings `generate_af_links` displays are returned as data instead: `Batch.GenerateLinks` returns them for the whole batch, in line order.
- The OpenAI chat and function-call requests (lines 14, 136-145, 239-249) are foreign network calls. They are replaced by the `Extractor` parameter. Arguments that do not decode to a JSON object are folded into its error case.
- `Batch.ProcessLine`: extraction is a function of the line alone, so in the model identical lines give identical rows. The language-model call it stands for can answer differently for the same line; modelling that would need an extraction result per line position rather than per line text.
- Loading `networkindex.json` and `appindex.json` (lines 17-19, 57-59) is file I/O. The tables are parameters, and only their string-valued objects are modelled.
- The pandas DataFrame and the CSV download (lines 279-281) are library wrappers.
- The form's `list.index` default selection (lines 209-219) is UI glue and is not modelled. Only `safe_index` is (as `Form.SafeIndex`).
- `Ascii.Upper`: models ASCII case mapping only, not Python's full Unicode `str.upper`/`str.lower` (for instance `ß` becoming `SS`).
- `Ascii.Lower`: ASCII case mapping only, for the same reason.
- `Fields.Message`: a KeyError message puts the key between single quotes. Python's `repr` escapes or re-quotes keys that contain quotes or backslashes, and that is not modelled.
- `Replace.ReplaceAll` is a recursive left-to-right definition of `str.replace`. CPython's counting implementation is not modelled, and neither is an empty pattern, which a `{key}` placeholder never is.
- A record is assumed to have distinct keys, as a decoded JSON object has, wherever order-independence is stated. A JSON text that repeats a key is not modelled.
- The normalisation errors are modelled by the field and the kind of value. The texts of Python's AttributeError and TypeError messages are not modelled, because the suggestion path shows them only through `st.error`.

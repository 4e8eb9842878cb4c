/** Format sniffing and component normalisation for CycloneDX 1.x and SPDX 2.3 JSON documents. */
module SbomParse {
  import opened Wrappers
  import opened Json
  import opened JsString

  datatype SbomFormat = CYCLONEDX | SPDX | OTHER

  /** One extracted component; every field but `name` may be absent. */
  datatype NormalizedComponent = NormalizedComponent(
    name: string,
    version: Option<string>,
    purl: Option<string>,
    group: Option<string>,
    componentType: Option<string>,
    supplier: Option<string>,
    license: Option<string>,
    scope: Option<string>,
    metadata: Json)

  datatype ParseResult = ParseResult(format: SbomFormat, specVersion: Option<string>, components: seq<NormalizedComponent>)

  /** `isRecord`: a value of type "object" that is neither null nor an array. */
  predicate IsRecord(v: Json)
    ensures IsRecord(v) <==> !(v.JBool? || v.JNum? || v.JStr?) && !v.JNull? && !v.JArr?
  {
    v.JObj?
  }

  predicate IsRecordAt(v: Option<Json>) {
    v.Some? && IsRecord(v.value)
  }

  /** `asString`: the string itself; null for every other value, `undefined` included. */
  function AsString(v: Option<Json>): (r: Option<string>)
    ensures r.Some? <==> v.Some? && v.value.JStr?
    ensures r.Some? ==> v == Some(JStr(r.value))
  {
    if v.Some? && v.value.JStr? then Some(v.value.str) else None
  }

  /** The elements of `v` when it is an array, otherwise no elements. */
  function ArrayOrEmpty(v: Option<Json>): seq<Json> {
    if v.Some? && v.value.JArr? then v.value.elems else []
  }

  /** The object-shaped elements of `xs`, in order. */
  function Records(xs: seq<Json>): (r: seq<Json>)
    ensures forall k :: 0 <= k < |r| ==> IsRecord(r[k]) && r[k] in xs
  {
    if xs == [] then [] else (if IsRecord(xs[0]) then [xs[0]] else []) + Records(xs[1..])
  }

  function Metadata(cs: seq<NormalizedComponent>): seq<Json> {
    seq(|cs|, k requires 0 <= k < |cs| => cs[k].metadata)
  }

  /** The present values of `xs`, in order. */
  function Somes<T>(xs: seq<Option<T>>): seq<T> {
    if xs == [] then [] else (if xs[0].Some? then [xs[0].value] else []) + Somes(xs[1..])
  }

  /** Parse every element of `xs` and keep the results that are present, in order. */
  function MapFilter(xs: seq<Json>, parse: Json -> Option<NormalizedComponent>): seq<NormalizedComponent> {
    Somes(seq(|xs|, k requires 0 <= k < |xs| => parse(xs[k])))
  }

  /** What both element parsers guarantee: a component exactly for an object, carrying that object as metadata. */
  ghost predicate IsExtractor(parse: Json -> Option<NormalizedComponent>) {
    forall v :: (parse(v).Some? <==> IsRecord(v)) && (parse(v).Some? ==> parse(v).value.metadata == v)
  }

  /** The map/filter pipeline emits one component per object-shaped element, in input order, each built from that element. */
  lemma {:induction false} MapFilterKeepsRecords(xs: seq<Json>, parse: Json -> Option<NormalizedComponent>)
    requires IsExtractor(parse)
    ensures |MapFilter(xs, parse)| == |Records(xs)|
    ensures forall k :: 0 <= k < |Records(xs)| ==> MapFilter(xs, parse)[k] == parse(Records(xs)[k]).value
    ensures Metadata(MapFilter(xs, parse)) == Records(xs)
  {
    if xs != [] {
      var mapped := seq(|xs|, k requires 0 <= k < |xs| => parse(xs[k]));
      var rest := xs[1..];
      assert mapped[1..] == seq(|rest|, k requires 0 <= k < |rest| => parse(rest[k]));
      assert MapFilter(xs, parse) == (if mapped[0].Some? then [mapped[0].value] else []) + MapFilter(rest, parse);
      MapFilterKeepsRecords(rest, parse);
    }
  }

  /** Emitting components preserves concatenation: elements keep their relative order. */
  lemma {:induction false} MapFilterAppend(xs: seq<Json>, ys: seq<Json>, parse: Json -> Option<NormalizedComponent>)
    ensures MapFilter(xs + ys, parse) == MapFilter(xs, parse) + MapFilter(ys, parse)
    decreases |xs|
  {
    if xs == [] {
      assert xs + ys == ys;
    } else {
      var zs := xs + ys;
      assert zs[1..] == xs[1..] + ys;
      var mz := seq(|zs|, k requires 0 <= k < |zs| => parse(zs[k]));
      var mx := seq(|xs|, k requires 0 <= k < |xs| => parse(xs[k]));
      assert mz[1..] == seq(|zs[1..]|, k requires 0 <= k < |zs[1..]| => parse(zs[1..][k]));
      assert mx[1..] == seq(|xs[1..]|, k requires 0 <= k < |xs[1..]| => parse(xs[1..][k]));
      MapFilterAppend(xs[1..], ys, parse);
    }
  }

  // ---------------------------------------------------------------- CycloneDX

  /** `licenses[0].license`, when `licenses` is a non-empty array whose first entry is an object holding an object `license`. */
  function FirstLicenseObject(licenses: Option<Json>): Option<Json> {
    if licenses.Some? && licenses.value.JArr? && |licenses.value.elems| > 0 && IsRecord(licenses.value.elems[0]) then
      var lic := Get(licenses.value.elems[0], "license");
      if IsRecordAt(lic) then lic else None
    else
      None
  }

  /** The CycloneDX license: `id` of `licenses[0].license`, falling back to its `name`. */
  function CycloneDxLicense(licenses: Option<Json>): (r: Option<string>)
    ensures r.Some? ==> FirstLicenseObject(licenses).Some?
    ensures FirstLicenseObject(licenses).Some? && AsString(Get(FirstLicenseObject(licenses).value, "id")).Some?
      ==> r == AsString(Get(FirstLicenseObject(licenses).value, "id"))
    ensures FirstLicenseObject(licenses).Some? && AsString(Get(FirstLicenseObject(licenses).value, "id")).None?
      ==> r == AsString(Get(FirstLicenseObject(licenses).value, "name"))
  {
    var lic := FirstLicenseObject(licenses);
    if lic.Some? then AsString(Get(lic.value, "id")).Or(AsString(Get(lic.value, "name"))) else None
  }

  /** `supplier.name`, only when `supplier` is an object. */
  function CycloneDxSupplier(supplierObj: Option<Json>): (r: Option<string>)
    ensures r.Some? ==> IsRecordAt(supplierObj) && Get(supplierObj.value, "name") == Some(JStr(r.value))
    ensures IsRecordAt(supplierObj) ==> r == AsString(Get(supplierObj.value, "name"))
    ensures !IsRecordAt(supplierObj) ==> r == None
  {
    if IsRecordAt(supplierObj) then AsString(Get(supplierObj.value, "name")) else None
  }

  function ParseCycloneDxComponent(v: Json): (r: Option<NormalizedComponent>)
    ensures r.Some? <==> IsRecord(v)
    ensures r.Some? ==> r.value.metadata == v && r.value.scope == None
    ensures r.Some? && AsString(Get(v, "name")).Some? ==> r.value.name == AsString(Get(v, "name")).value
    ensures r.Some? && AsString(Get(v, "name")).None? ==> r.value.name == "unknown"
    ensures r.Some? ==> r.value.version == AsString(Get(v, "version")) && r.value.purl == AsString(Get(v, "purl"))
    ensures r.Some? ==> r.value.group == AsString(Get(v, "group")) && r.value.componentType == AsString(Get(v, "type"))
    ensures r.Some? ==> r.value.supplier == CycloneDxSupplier(Get(v, "supplier")) && r.value.license == CycloneDxLicense(Get(v, "licenses"))
  {
    if !IsRecord(v) then None
    else
      Some(NormalizedComponent(
        name := AsString(Get(v, "name")).GetOr("unknown"),
        version := AsString(Get(v, "version")),
        purl := AsString(Get(v, "purl")),
        group := AsString(Get(v, "group")),
        componentType := AsString(Get(v, "type")),
        supplier := CycloneDxSupplier(Get(v, "supplier")),
        license := CycloneDxLicense(Get(v, "licenses")),
        scope := None,
        metadata := v))
  }

  // ---------------------------------------------------------------- SPDX

  /** An `externalRefs` entry that yields the purl: an object whose lower-cased string `referenceType`
      contains "purl" and whose `referenceLocator` is a non-empty string. */
  predicate IsPurlRef(ref: Json) {
    && IsRecord(ref)
    && AsString(Get(ref, "referenceType")).Some?
    && Includes(ToLowerAscii(AsString(Get(ref, "referenceType")).value), "purl")
    && AsString(Get(ref, "referenceLocator")).Some?
    && AsString(Get(ref, "referenceLocator")).value != ""
  }

  function Locator(ref: Json): string
    requires IsPurlRef(ref)
  {
    AsString(Get(ref, "referenceLocator")).value
  }

  /** The purl of the first qualifying entry of `refs`. */
  function FirstPurl(refs: seq<Json>): Option<string> {
    if refs == [] then None
    else if IsPurlRef(refs[0]) then Some(Locator(refs[0]))
    else FirstPurl(refs[1..])
  }

  /** Index of the first qualifying entry. */
  ghost predicate IsFirstPurlRef(refs: seq<Json>, i: int) {
    0 <= i < |refs| && IsPurlRef(refs[i]) && forall j :: 0 <= j < i ==> !IsPurlRef(refs[j])
  }

  /** FirstPurl is first-match search: no match gives null; otherwise the locator of the
      earliest qualifying entry, whatever later entries hold. */
  lemma {:induction false} FirstPurlIsFirstMatch(refs: seq<Json>)
    ensures FirstPurl(refs).None? <==> forall j :: 0 <= j < |refs| ==> !IsPurlRef(refs[j])
    ensures FirstPurl(refs).Some? ==> exists i :: IsFirstPurlRef(refs, i) && FirstPurl(refs).value == Locator(refs[i])
  {
    if refs != [] && !IsPurlRef(refs[0]) {
      FirstPurlIsFirstMatch(refs[1..]);
      if FirstPurl(refs).Some? {
        var i :| IsFirstPurlRef(refs[1..], i) && FirstPurl(refs[1..]).value == Locator(refs[1..][i]);
        assert IsFirstPurlRef(refs, i + 1);
      }
    } else if refs != [] {
      assert IsFirstPurlRef(refs, 0);
    }
  }

  /** The loop over `externalRefs`: skips entries that are not objects, stops at the first match. */
  method FindPurl(externalRefs: Option<Json>) returns (purl: Option<string>)
    ensures purl == FirstPurl(ArrayOrEmpty(externalRefs))
  {
    purl := None;
    if externalRefs.Some? && externalRefs.value.JArr? {
      var refs := externalRefs.value.elems;
      var i := 0;
      while i < |refs|
        invariant 0 <= i <= |refs|
        invariant FirstPurl(refs) == FirstPurl(refs[i..])
      {
        var ref := refs[i];
        if !IsRecord(ref) {
          i := i + 1;
          continue;
        }
        var referenceType := AsString(Get(ref, "referenceType"));
        var referenceLocator := AsString(Get(ref, "referenceLocator"));
        if referenceType.Some? && Includes(ToLowerAscii(referenceType.value), "purl")
          && referenceLocator.Some? && referenceLocator.value != ""
        {
          purl := referenceLocator;
          break;
        }
        i := i + 1;
      }
    }
  }

  /** SPDX license: `licenseConcluded` strictly before `licenseDeclared`. */
  function SpdxLicense(v: Json): (r: Option<string>)
    ensures AsString(Get(v, "licenseConcluded")).Some? ==> r == AsString(Get(v, "licenseConcluded"))
    ensures AsString(Get(v, "licenseConcluded")).None? ==> r == AsString(Get(v, "licenseDeclared"))
  {
    AsString(Get(v, "licenseConcluded")).Or(AsString(Get(v, "licenseDeclared")))
  }

  function ParseSpdxPackage(v: Json): (r: Option<NormalizedComponent>)
    ensures r.Some? <==> IsRecord(v)
    ensures r.Some? ==> r.value.metadata == v
    ensures r.Some? && AsString(Get(v, "name")).Some? ==> r.value.name == AsString(Get(v, "name")).value
    ensures r.Some? && AsString(Get(v, "name")).None? ==> r.value.name == "unknown"
    ensures r.Some? ==> r.value.purl == FirstPurl(ArrayOrEmpty(Get(v, "externalRefs")))
    ensures r.Some? ==> r.value.license == SpdxLicense(v)
    ensures r.Some? ==> r.value.group == None && r.value.componentType == None && r.value.scope == None
    ensures r.Some? ==> r.value.version == AsString(Get(v, "versionInfo")) && r.value.supplier == AsString(Get(v, "supplier"))
  {
    if !IsRecord(v) then None
    else
      Some(NormalizedComponent(
        name := AsString(Get(v, "name")).GetOr("unknown"),
        version := AsString(Get(v, "versionInfo")),
        purl := FirstPurl(ArrayOrEmpty(Get(v, "externalRefs"))),
        group := None,
        componentType := None,
        supplier := AsString(Get(v, "supplier")),
        license := SpdxLicense(v),
        scope := None,
        metadata := v))
  }

  // ---------------------------------------------------------------- detection

  predicate IsCycloneDx(input: Json) {
    Get(input, "bomFormat") == Some(JStr("CycloneDX"))
  }

  predicate IsSpdx(input: Json) {
    AsString(Get(input, "spdxVersion")).Some? || AsString(Get(input, "SPDXID")).Some?
  }

  /** The top-level array the detected format's components are read from. */
  function ComponentList(input: Json, format: SbomFormat): seq<Json> {
    match format
    case CYCLONEDX => ArrayOrEmpty(Get(input, "components"))
    case SPDX => ArrayOrEmpty(Get(input, "packages"))
    case OTHER => []
  }

  function ParseSbomJson(input: Json): (r: ParseResult)
    ensures r.format == CYCLONEDX <==> IsRecord(input) && IsCycloneDx(input)
    ensures r.format == SPDX <==> IsRecord(input) && !IsCycloneDx(input) && IsSpdx(input)
    ensures r.format == OTHER ==> r.specVersion == None && r.components == []
    ensures r.format == CYCLONEDX ==> r.specVersion == AsString(Get(input, "specVersion"))
    ensures r.format == SPDX ==> r.specVersion == AsString(Get(input, "spdxVersion"))
    ensures Metadata(r.components) == Records(ComponentList(input, r.format))
  {
    if !IsRecord(input) then
      ParseResult(OTHER, None, [])
    else if IsCycloneDx(input) then
      var raw := ArrayOrEmpty(Get(input, "components"));
      MapFilterKeepsRecords(raw, ParseCycloneDxComponent);
      ParseResult(CYCLONEDX, AsString(Get(input, "specVersion")), MapFilter(raw, ParseCycloneDxComponent))
    else if IsSpdx(input) then
      var raw := ArrayOrEmpty(Get(input, "packages"));
      MapFilterKeepsRecords(raw, ParseSpdxPackage);
      ParseResult(SPDX, AsString(Get(input, "spdxVersion")), MapFilter(raw, ParseSpdxPackage))
    else
      ParseResult(OTHER, None, [])
  }

  // ---------------------------------------------------------------- properties

  /** Anything but a JSON object (an array, null, a scalar) is OTHER with no spec version and no components. */
  lemma NonObjectIsOther(input: Json)
    requires !IsRecord(input)
    ensures ParseSbomJson(input) == ParseResult(OTHER, None, [])
  {
  }

  /** `bomFormat == "CycloneDX"` is checked first: it wins even when SPDX markers are present too. */
  lemma CycloneDxWinsOverSpdx(input: Json)
    requires IsRecord(input) && IsCycloneDx(input) && IsSpdx(input)
    ensures ParseSbomJson(input).format == CYCLONEDX
    ensures ParseSbomJson(input).specVersion == AsString(Get(input, "specVersion"))
  {
  }

  /** A document recognised only by a string `SPDXID` is SPDX with a null spec version. */
  lemma SpdxIdOnlyHasNoSpecVersion(input: Json)
    requires IsRecord(input) && !IsCycloneDx(input)
    requires AsString(Get(input, "SPDXID")).Some? && AsString(Get(input, "spdxVersion")).None?
    ensures ParseSbomJson(input).format == SPDX && ParseSbomJson(input).specVersion == None
  {
  }

  /** The emitted list is, element for element, the format's parser applied to the object-shaped
      entries of `components` (CycloneDX) or `packages` (SPDX), in input order. */
  lemma ComponentsFollowElements(input: Json)
    ensures var r := ParseSbomJson(input);
      var recs := Records(ComponentList(input, r.format));
      && |r.components| == |recs|
      && (r.format == CYCLONEDX ==> forall k :: 0 <= k < |recs| ==> r.components[k] == ParseCycloneDxComponent(recs[k]).value)
      && (r.format == SPDX ==> forall k :: 0 <= k < |recs| ==> r.components[k] == ParseSpdxPackage(recs[k]).value)
  {
    var r := ParseSbomJson(input);
    if r.format == CYCLONEDX {
      MapFilterKeepsRecords(ComponentList(input, r.format), ParseCycloneDxComponent);
    } else if r.format == SPDX {
      MapFilterKeepsRecords(ComponentList(input, r.format), ParseSpdxPackage);
    }
  }

  /** Only `licenses[0]` is consulted: entries after the first never change the CycloneDX license. */
  lemma CycloneDxLicenseOnlyFirstEntry(a: seq<Json>, b: seq<Json>)
    requires |a| > 0 && |b| > 0 && a[0] == b[0]
    ensures CycloneDxLicense(Some(JArr(a))) == CycloneDxLicense(Some(JArr(b)))
  {
  }

  /** Two qualifying `externalRefs` entries: the earlier one's locator is the purl. */
  lemma {:induction false} EarlierPurlRefWins(refs: seq<Json>, i: int, j: int)
    requires 0 <= i < j < |refs| && IsPurlRef(refs[i]) && IsPurlRef(refs[j])
    requires forall k :: 0 <= k < i ==> !IsPurlRef(refs[k])
    ensures FirstPurl(refs) == Some(Locator(refs[i]))
  {
    FirstPurlIsFirstMatch(refs);
    var m :| IsFirstPurlRef(refs, m) && FirstPurl(refs).value == Locator(refs[m]);
    assert m == i;
  }

  /** The `referenceType` match ignores case: an entry typed "PURL" with a non-empty locator qualifies. */
  lemma UpperCasePurlTypeQualifies(ref: Json)
    requires IsRecord(ref) && Get(ref, "referenceType") == Some(JStr("PURL"))
    requires AsString(Get(ref, "referenceLocator")).Some? && AsString(Get(ref, "referenceLocator")).value != ""
    ensures IsPurlRef(ref)
  {
    var lowered := ToLowerAscii("PURL");
    assert lowered == "purl" by {
      assert lowered[0] == 'p' && lowered[1] == 'u' && lowered[2] == 'r' && lowered[3] == 'l';
    }
    assert OccursAt(lowered, "purl", 0);
    IncludesIff(lowered, "purl");
  }
}

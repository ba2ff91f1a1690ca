/**
 * The `.jscm` colormap document: what `save_colormap` writes and how the
 * loader reads it back — the editor parameters when the viscm extension
 * section is present, the hex colour list otherwise.
 */
module Jscm {
  import opened Wrappers
  import opened ControlPoints
  import opened ColorMap
  import opened HexCodec

  /** A JSON value. */
  datatype Json = JString(str: string) | JNumber(num: real) | JArray(items: seq<Json>) | JObject(fields: map<string, Json>) | JNull

  /** The key of the viscm section under "extensions". */
  const ViscmUrl: string := "https://matplotlib.org/viscm"

  /** The extension entries the loader passes on to the editor. */
  const EditorKeys: set<string> := {"xp", "yp", "min_Jp", "max_Jp", "fixed", "uniform_space"}

  function CmTypeName(cmtype: CmType): string {
    match cmtype
    case Sequential => "sequential"
    case Diverging => "diverging"
    case Cyclic => "cyclic"
  }

  function Numbers(xs: seq<real>): Json {
    JArray(seq(|xs|, k requires 0 <= k < |xs| => JNumber(xs[k])))
  }

  /** The fixed indices as `json.dump` writes what `get_control_points` returns. */
  function FixedJson(f: FixedView): Json {
    match f
    case Unfixed => JNull
    case Index(i) => JNumber(i as real)
    case Indices(list) => JArray(seq(|list|, k requires 0 <= k < |list| => JNumber(list[k] as real)))
  }

  /** The editor's own section of a saved document. */
  function Extension(cmtype: CmType, minJp: real, maxJp: real, xp: seq<real>, yp: seq<real>, fixed: FixedView,
                     uniformSpace: string, splineMethod: string): map<string, Json>
  {
    map["min_Jp" := JNumber(minJp), "max_Jp" := JNumber(maxJp), "xp" := Numbers(xp), "yp" := Numbers(yp),
        "fixed" := FixedJson(fixed), "filter_k" := JNumber(100.0), "cmtype" := JString(CmTypeName(cmtype)),
        "uniform_colorspace" := JString(uniformSpace), "spline_method" := JString(splineMethod)]
  }

  /** The document `save_colormap` writes, `colors` being the blob of `EncodeColors`. */
  function SaveDocument(name: string, cmtype: CmType, minJp: real, maxJp: real, xp: seq<real>, yp: seq<real>,
                        fixed: FixedView, uniformSpace: string, splineMethod: string, colors: string): (d: map<string, Json>)
    ensures "name" in d && d["name"] == JString(name)
    ensures "colors" in d && d["colors"] == JString(colors)
    ensures "extensions" in d
      && d["extensions"] == JObject(map[ViscmUrl := JObject(Extension(cmtype, minJp, maxJp, xp, yp, fixed, uniformSpace, splineMethod))])
  {
    map["content-type" := JString("application/vnd.matplotlib.colormap-v1+json"),
        "name" := JString(name),
        "license" := JString("http://creativecommons.org/publicdomain/zero/1.0"),
        "usage-hints" := JArray([JString("red-green-colorblind-safe"), JString("greyscale-safe"), JString(CmTypeName(cmtype))]),
        "colorspace" := JString("sRGB"),
        "domain" := JString("continuous"),
        "colors" := JString(colors),
        "extensions" := JObject(map[ViscmUrl := JObject(Extension(cmtype, minJp, maxJp, xp, yp, fixed, uniformSpace, splineMethod))])]
  }

  /** What the loader builds: the arguments of a new editor, or a plain list of colours. */
  datatype Loaded =
    | Editable(params: map<string, Json>, cmtype: Json, splineMethod: Json, uniformSpace: Json)
    | Listed(name: Json, colors: seq<Color>)

  /** Where the loader raises (a missing key, a wrong JSON type, bad hex) or exits ("N/A" colours). */
  datatype LoadError = MissingKey(key: string) | Malformed | InvalidColormap | BadColors

  /** The editor parameters: the entries of the section under `EditorKeys`, and the document's name. */
  function FilterParams(ext: map<string, Json>, name: Json): (params: map<string, Json>)
    ensures params.Keys == ext.Keys * EditorKeys + {"name"}
    ensures params["name"] == name
    ensures forall k :: k in ext && k in EditorKeys ==> params[k] == ext[k]
  {
    (map k | k in ext && k in EditorKeys :: ext[k])["name" := name]
  }

  /** Old files call a sequential map "linear". */
  function NormalizeCmType(c: Json): Json {
    if c == JString("linear") then JString("sequential") else c
  }

  /** The `.jscm` branch of `Colormap.load`. */
  function LoadJscm(data: map<string, Json>): (r: Result<Loaded, LoadError>)
    ensures "name" !in data ==> r == Err(MissingKey("name"))
    ensures r.Ok? && r.value.Editable? ==>
      && "name" in data && "name" in r.value.params && r.value.params.Keys <= EditorKeys + {"name"}
      && r.value.params["name"] == data["name"]
      && r.value.cmtype != JString("linear")
    ensures r.Ok? && r.value.Listed? ==>
      && "name" in data && r.value.name == data["name"]
      && "colors" in data && data["colors"].JString? && DecodeColors(data["colors"].str) == Ok(r.value.colors)
  {
    if "name" !in data then Err(MissingKey("name"))
    else if "extensions" in data && data["extensions"].JObject? && ViscmUrl in data["extensions"].fields then
      var ext := data["extensions"].fields[ViscmUrl];
      if !ext.JObject? then Err(Malformed)
      else if "cmtype" !in ext.fields then Err(MissingKey("cmtype"))
      else if "spline_method" !in ext.fields then Err(MissingKey("spline_method"))
      else if "uniform_colorspace" !in ext.fields then Err(MissingKey("uniform_colorspace"))
      else Ok(Editable(FilterParams(ext.fields, data["name"]), NormalizeCmType(ext.fields["cmtype"]),
                       ext.fields["spline_method"], ext.fields["uniform_colorspace"]))
    else if "colors" !in data then Err(MissingKey("colors"))
    else if !data["colors"].JString? then Err(Malformed)
    else
      match DecodeColors(data["colors"].str)
      case Err(NotAvailable) => Err(InvalidColormap)
      case Err(BadDigits) => Err(BadColors)
      case Ok(cs) => Ok(Listed(data["name"], cs))
  }

  /**
   * Saving and loading: the loader hands the editor the saved control
   * points, fixed indices, lightness range and name, with the saved
   * topology, spline method and colour space.
   */
  lemma SaveLoad(name: string, cmtype: CmType, minJp: real, maxJp: real, xp: seq<real>, yp: seq<real>,
                 fixed: FixedView, uniformSpace: string, splineMethod: string, colors: string)
    ensures LoadJscm(SaveDocument(name, cmtype, minJp, maxJp, xp, yp, fixed, uniformSpace, splineMethod, colors))
      == Ok(Editable(map["name" := JString(name), "min_Jp" := JNumber(minJp), "max_Jp" := JNumber(maxJp),
                         "xp" := Numbers(xp), "yp" := Numbers(yp), "fixed" := FixedJson(fixed)],
                     JString(CmTypeName(cmtype)), JString(splineMethod), JString(uniformSpace)))
  {
    var data := SaveDocument(name, cmtype, minJp, maxJp, xp, yp, fixed, uniformSpace, splineMethod, colors);
    var ext := Extension(cmtype, minJp, maxJp, xp, yp, fixed, uniformSpace, splineMethod);
    ExtensionEntries(cmtype, minJp, maxJp, xp, yp, fixed, uniformSpace, splineMethod);
    ExtensionParams(cmtype, minJp, maxJp, xp, yp, fixed, uniformSpace, splineMethod, name);
    assert JString(CmTypeName(cmtype)) != JString("linear");
  }

  /** The entries of the viscm section that the loader reads by name. */
  lemma ExtensionEntries(cmtype: CmType, minJp: real, maxJp: real, xp: seq<real>, yp: seq<real>, fixed: FixedView,
                         uniformSpace: string, splineMethod: string)
    ensures var ext := Extension(cmtype, minJp, maxJp, xp, yp, fixed, uniformSpace, splineMethod);
      && "cmtype" in ext && ext["cmtype"] == JString(CmTypeName(cmtype))
      && "spline_method" in ext && ext["spline_method"] == JString(splineMethod)
      && "uniform_colorspace" in ext && ext["uniform_colorspace"] == JString(uniformSpace)
  {
  }

  lemma ExtensionParams(cmtype: CmType, minJp: real, maxJp: real, xp: seq<real>, yp: seq<real>, fixed: FixedView,
                        uniformSpace: string, splineMethod: string, name: string)
    ensures FilterParams(Extension(cmtype, minJp, maxJp, xp, yp, fixed, uniformSpace, splineMethod), JString(name))
      == map["name" := JString(name), "min_Jp" := JNumber(minJp), "max_Jp" := JNumber(maxJp), "xp" := Numbers(xp),
             "yp" := Numbers(yp), "fixed" := FixedJson(fixed)]
  {
    var n := JString(name);
    var m0: map<string, Json> := map[];
    var m1 := m0["min_Jp" := JNumber(minJp)];
    var m2 := m1["max_Jp" := JNumber(maxJp)];
    var m3 := m2["xp" := Numbers(xp)];
    var m4 := m3["yp" := Numbers(yp)];
    var m5 := m4["fixed" := FixedJson(fixed)];
    var m6 := m5["filter_k" := JNumber(100.0)];
    var m7 := m6["cmtype" := JString(CmTypeName(cmtype))];
    var m8 := m7["uniform_colorspace" := JString(uniformSpace)];
    var m9 := m8["spline_method" := JString(splineMethod)];
    assert m9 == Extension(cmtype, minJp, maxJp, xp, yp, fixed, uniformSpace, splineMethod);
    FilterEmpty(n);
    SkippedKeys();
    FilterKeep(m0, "min_Jp", JNumber(minJp), n);
    FilterKeep(m1, "max_Jp", JNumber(maxJp), n);
    FilterKeep(m2, "xp", Numbers(xp), n);
    FilterKeep(m3, "yp", Numbers(yp), n);
    FilterKeep(m4, "fixed", FixedJson(fixed), n);
    FilterSkip(m5, "filter_k", JNumber(100.0), n);
    FilterSkip(m6, "cmtype", JString(CmTypeName(cmtype)), n);
    FilterSkip(m7, "uniform_colorspace", JString(uniformSpace), n);
    FilterSkip(m8, "spline_method", JString(splineMethod), n);
  }

  lemma FilterEmpty(name: Json)
    ensures FilterParams(map[], name) == map["name" := name]
  {
    var e: map<string, Json> := map[];
    assert FilterParams(e, name).Keys == {"name"};
  }

  /** The extension entries that the editor does not take. */
  lemma SkippedKeys()
    ensures "filter_k" !in EditorKeys && "cmtype" !in EditorKeys
    ensures "uniform_colorspace" !in EditorKeys && "spline_method" !in EditorKeys
  {
  }

  /** An entry outside the editor's keys does not reach the parameters. */
  lemma FilterSkip(ext: map<string, Json>, k: string, v: Json, name: Json)
    requires k !in EditorKeys
    ensures FilterParams(ext[k := v], name) == FilterParams(ext, name)
  {
  }

  /** An entry under one of the editor's keys reaches the parameters unchanged. */
  lemma FilterKeep(ext: map<string, Json>, k: string, v: Json, name: Json)
    requires k in EditorKeys
    ensures FilterParams(ext[k := v], name) == FilterParams(ext, name)[k := v]
  {
    assert k != "name";
    var l, r := FilterParams(ext[k := v], name), FilterParams(ext, name)[k := v];
    assert l.Keys == r.Keys;
  }

  /**
   * A document without the viscm section loads as its colour list: each
   * saved colour rounded to bytes, or the "N/A" refusal when the table had
   * a NaN row.
   */
  lemma LoadColorList(name: string, rows: seq<Pixel>, others: map<string, Json>)
    requires forall i :: 0 <= i < |rows| && rows[i].Shown? ==> Displayable(rows[i].color)
    requires "extensions" !in others
    ensures var data := others["name" := JString(name)]["colors" := JString(EncodeColors(rows))];
      && (AllShown(rows) ==> LoadJscm(data) == Ok(Listed(JString(name), QuantizedAll(rows))))
      && (!AllShown(rows) ==> LoadJscm(data) == Err(InvalidColormap))
  {
    var blob := EncodeColors(rows);
    var data := others["name" := JString(name)]["colors" := JString(blob)];
    assert "name" in data && "extensions" !in data && "colors" in data && data["colors"] == JString(blob);
    EncodeDecode(rows);
    if !AllShown(rows) {
      var i :| 0 <= i < |rows| && !(rows[i].Shown? && Displayable(rows[i].color));
      assert rows[i].NotANumber?;
      assert DecodeColors(blob) == Err(NotAvailable);
    } else {
      assert DecodeColors(blob) == Ok(QuantizedAll(rows));
    }
  }

  /**
   * A document from before the rename: a viscm section whose map type is
   * "linear" opens as a sequential map; a document without a name is refused.
   */
  lemma LegacyLinear(data: map<string, Json>, ext: map<string, Json>)
    requires "name" in data && "extensions" in data && data["extensions"] == JObject(map[ViscmUrl := JObject(ext)])
    requires "cmtype" in ext && "spline_method" in ext && "uniform_colorspace" in ext
    requires ext["cmtype"] == JString("linear")
    ensures LoadJscm(data).Ok? && LoadJscm(data).value.Editable?
    ensures LoadJscm(data).value.cmtype == JString("sequential")
    ensures LoadJscm(data - {"name"}) == Err(MissingKey("name"))
  {
  }
}

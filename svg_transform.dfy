/**
 * The output side of the SVG transformer (build/svg.ts:190-230): each effective layer's
 * document is escaped, serialised, optimised, parsed back, escaped again and serialised
 * child by child into one `engineSvg` artifact, stored under the layer's name.
 *
 * The XML serialiser and parser (xml-js) and the optimiser (svgo) are not part of this
 * model; they are the function parameters of `XmlTools`.
 */
module SvgTransform {
  import opened Common
  import opened SvgTree
  import opened SvgLayers

  /** One generated file: its code tag and its text. */
  datatype Artifact = Artifact(code: string, data: string)

  /** `js2xml`, `xml2js` and the optimiser's `optimize`. */
  datatype XmlTools = XmlTools(toXml: Element -> string, fromXml: string -> Element, optimize: string -> string)

  /** `elements.map(element => js2xml(element)).join("")`. */
  function SerialiseAll(toXml: Element -> string, cs: seq<Element>): string
  {
    if cs == [] then "" else toXml(cs[0]) + SerialiseAll(toXml, cs[1..])
  }

  /**
   * The artifact of one layer (lines 218-227), given the tree handed to the serialiser
   * (already escaped); `esc` is the escaping applied to the optimiser's output.
   */
  function LayerArtifact(tools: XmlTools, esc: string -> string, input: Element): (r: Result<Artifact, SvgError>)
    ensures r.Ok? ==> r.value.code == "engineSvg"
    ensures r.Err? ==> r.error == OptimizedHasNoElements
    ensures r.Err? <==> tools.fromXml(tools.optimize(tools.toXml(input))).elements.Absent?
    ensures r.Ok? ==>
              r.value.data == SerialiseAll(tools.toXml, EscapeTree(esc, tools.fromXml(tools.optimize(tools.toXml(input)))).elements.items)
  {
    var optimized := EscapeTree(esc, tools.fromXml(tools.optimize(tools.toXml(input))));
    match optimized.elements
    case Absent => Err(OptimizedHasNoElements)
    case Present(cs) => Ok(Artifact("engineSvg", SerialiseAll(tools.toXml, cs)))
  }

  /**
   * The `generated` dictionary after the loop of lines 197-228 has gone through `inputs`
   * (name and serialiser input of each layer) in order; the first failure ends it.
   */
  function Collect(tools: XmlTools, esc: string -> string, inputs: seq<(string, Element)>): Result<map<string, Artifact>, SvgError>
  {
    if inputs == [] then Ok(map[])
    else
      var last := inputs[|inputs| - 1];
      match Collect(tools, esc, inputs[..|inputs| - 1])
      case Err(e) => Err(e)
      case Ok(generated) =>
        match LayerArtifact(tools, esc, last.1)
        case Err(e) => Err(e)
        case Ok(a) => Ok(generated[last.0 := a])
  }

  /** Once the loop has failed, later layers change nothing. */
  lemma {:induction false} CollectKeepsError(tools: XmlTools, esc: string -> string, inputs: seq<(string, Element)>, i: nat)
    requires i <= |inputs| && Collect(tools, esc, inputs[..i]).Err?
    ensures Collect(tools, esc, inputs) == Collect(tools, esc, inputs[..i])
    decreases |inputs| - i
  {
    if i < |inputs| {
      assert inputs[..i + 1][..i] == inputs[..i];
      CollectKeepsError(tools, esc, inputs, i + 1);
    } else {
      assert inputs[..i] == inputs;
    }
  }

  predicate AllSucceed(tools: XmlTools, esc: string -> string, inputs: seq<(string, Element)>) {
    forall i :: 0 <= i < |inputs| ==> LayerArtifact(tools, esc, inputs[i].1).Ok?
  }

  /** The name/artifact pairs assigned to `generated`, in order. */
  function Assignments(tools: XmlTools, esc: string -> string, inputs: seq<(string, Element)>): seq<(string, Artifact)>
    requires AllSucceed(tools, esc, inputs)
  {
    seq(|inputs|, i requires 0 <= i < |inputs| => (inputs[i].0, LayerArtifact(tools, esc, inputs[i].1).value))
  }

  /**
   * The loop succeeds exactly when every layer's artifact does, and then `generated` is
   * the assignments applied in order, a later layer with the same name overwriting an
   * earlier one.
   */
  lemma {:induction false} CollectIsOverlay(tools: XmlTools, esc: string -> string, inputs: seq<(string, Element)>)
    ensures Collect(tools, esc, inputs).Ok? <==> AllSucceed(tools, esc, inputs)
    ensures AllSucceed(tools, esc, inputs) ==>
      Collect(tools, esc, inputs).value == Overlay(map[], Assignments(tools, esc, inputs))
  {
    if inputs != [] {
      var n := |inputs| - 1;
      var init := inputs[..n];
      CollectIsOverlay(tools, esc, init);
      SucceedPrefix(tools, esc, inputs);
      if AllSucceed(tools, esc, inputs) {
        var kvs := Assignments(tools, esc, inputs);
        assert kvs[..n] == Assignments(tools, esc, init);
      }
    }
  }

  /** Every layer succeeds iff every earlier one does and the last one does too. */
  lemma SucceedPrefix(tools: XmlTools, esc: string -> string, inputs: seq<(string, Element)>)
    requires inputs != []
    ensures var n := |inputs| - 1;
      AllSucceed(tools, esc, inputs) <==> AllSucceed(tools, esc, inputs[..n]) && LayerArtifact(tools, esc, inputs[n].1).Ok?
  {
    var n := |inputs| - 1;
    assert forall i :: 0 <= i < n ==> inputs[..n][i] == inputs[i];
  }

  /**
   * What the loop produces: on success, one entry per distinct layer name, holding the
   * artifact of the LAST layer with that name, with code `engineSvg`.
   */
  lemma CollectEntry(tools: XmlTools, esc: string -> string, inputs: seq<(string, Element)>, k: string)
    requires Collect(tools, esc, inputs).Ok?
    ensures var generated := Collect(tools, esc, inputs).value;
      && (k in generated <==> exists i :: 0 <= i < |inputs| && inputs[i].0 == k)
      && (k in generated ==> generated[k].code == "engineSvg")
      && (forall i :: IsLastName(inputs, i, k) ==> LayerArtifact(tools, esc, inputs[i].1) == Ok(generated[k]))
  {
    CollectIsOverlay(tools, esc, inputs);
    var kvs := Assignments(tools, esc, inputs);
    AssignmentsShape(tools, esc, inputs);
    OverlayEntry(kvs, k);
    SameNames(inputs, kvs, k);
    forall i | IsLastName(inputs, i, k) ensures IsLastWrite(kvs, i, k) {
    }
  }

  /** The assignments carry the layer names, in order, and `engineSvg` artifacts. */
  lemma AssignmentsShape(tools: XmlTools, esc: string -> string, inputs: seq<(string, Element)>)
    requires AllSucceed(tools, esc, inputs)
    ensures var kvs := Assignments(tools, esc, inputs);
      && |kvs| == |inputs|
      && forall i :: 0 <= i < |kvs| ==> kvs[i].0 == inputs[i].0 && kvs[i].1.code == "engineSvg"
  {
  }

  /** The overlay of `engineSvg` artifacts: one entry per name, the last artifact for it. */
  lemma OverlayEntry(kvs: seq<(string, Artifact)>, k: string)
    requires forall i :: 0 <= i < |kvs| ==> kvs[i].1.code == "engineSvg"
    ensures k in Overlay(map[], kvs) <==> exists i :: 0 <= i < |kvs| && kvs[i].0 == k
    ensures k in Overlay(map[], kvs) ==> Overlay(map[], kvs)[k].code == "engineSvg"
    ensures forall i :: IsLastWrite(kvs, i, k) ==> Overlay(map[], kvs)[k] == kvs[i].1
  {
    OverlayKeys(map[], kvs, k);
    forall i | IsLastWrite(kvs, i, k) ensures Overlay(map[], kvs)[k] == kvs[i].1 {
      OverlayLast(map[], kvs, k, i);
    }
    if k in Overlay(map[], kvs) {
      var i :| 0 <= i < |kvs| && kvs[i].0 == k;
      OverlayLast(map[], kvs, k, LastIndexOf(kvs, i, k));
    }
  }

  /** Two sequences with the same names at the same positions name the same keys. */
  lemma SameNames<A, B>(xs: seq<(string, A)>, ys: seq<(string, B)>, k: string)
    requires |xs| == |ys| && forall i :: 0 <= i < |xs| ==> xs[i].0 == ys[i].0
    ensures (exists i :: 0 <= i < |xs| && xs[i].0 == k) <==> (exists i :: 0 <= i < |ys| && ys[i].0 == k)
  {
    if exists i :: 0 <= i < |xs| && xs[i].0 == k {
      var i :| 0 <= i < |xs| && xs[i].0 == k;
      assert ys[i].0 == k;
    }
  }

  /** Layer `i` is the last one named `k`. */
  predicate IsLastName(inputs: seq<(string, Element)>, i: int, k: string) {
    0 <= i < |inputs| && inputs[i].0 == k && forall j :: i < j < |inputs| ==> inputs[j].0 != k
  }

  /** The last index at or after `i` whose key is `k`. */
  function LastIndexOf(kvs: seq<(string, Artifact)>, i: nat, k: string): (r: nat)
    requires i < |kvs| && kvs[i].0 == k
    ensures IsLastWrite(kvs, r, k)
    decreases |kvs| - i
  {
    if exists j :: i < j < |kvs| && kvs[j].0 == k then
      var j :| i < j < |kvs| && kvs[j].0 == k;
      LastIndexOf(kvs, j, k)
    else i
  }

  // ---------------------------------------------------------------------------
  // The transformer, with each layer escaped once and every occurrence escaped
  // ---------------------------------------------------------------------------

  /** Each layer's name and the tree its serialiser receives: the layer's own document, escaped once. */
  function SerialiserInputs(layers: seq<EffectiveLayer>): (r: seq<(string, Element)>)
    ensures |r| == |layers|
  {
    seq(|layers|, i requires 0 <= i < |layers| => (layers[i].name, EscapeTree(EscapeText, layers[i].xml)))
  }

  /** Decoding what each serialiser receives gives back that layer's document (attribute values as strings). */
  lemma SerialiserInputsDecode(layers: seq<EffectiveLayer>)
    ensures forall i :: 0 <= i < |layers| ==>
      SerialiserInputs(layers)[i].0 == layers[i].name &&
      UnescapeTree(SerialiserInputs(layers)[i].1) == CoerceTree(layers[i].xml)
  {
    forall i | 0 <= i < |layers|
      ensures UnescapeTree(SerialiserInputs(layers)[i].1) == CoerceTree(layers[i].xml)
    {
      UnescapeEscapeTree(layers[i].xml);
    }
  }

  /** The whole transformer on the file's text: parse, validate, split, generate. */
  function Transformed(tools: XmlTools, join: (string, string) -> string, source: string, fileName: string)
    : Result<map<string, Artifact>, SvgError>
  {
    match Validate(tools.fromXml(source))
    case Err(e) => Err(e)
    case Ok(doc) => Collect(tools, EscapeText, SerialiserInputs(EffectiveLayers(join, doc, fileName)))
  }

  /**
   * The loop of lines 197-228 as corrected (see the findings in the README): each
   * layer's document is escaped once, and every occurrence of a special character is
   * escaped. The loop as the source writes it is `GenerateAsWritten`.
   */
  method Generate(tools: XmlTools, layers: seq<EffectiveLayer>) returns (r: Result<map<string, Artifact>, SvgError>)
    ensures r == Collect(tools, EscapeText, SerialiserInputs(layers))
  {
    ghost var inputs := SerialiserInputs(layers);
    var generated: map<string, Artifact> := map[];
    assert inputs[..0] == [];
    for i := 0 to |layers|
      invariant Collect(tools, EscapeText, inputs[..i]) == Ok(generated)
    {
      CollectStep(tools, EscapeText, inputs, i, generated);
      var input := EscapeTree(EscapeText, layers[i].xml);
      var artifact := LayerArtifact(tools, EscapeText, input);
      if artifact.Err? {
        CollectKeepsError(tools, EscapeText, inputs, i + 1);
        return Err(artifact.error);
      }
      generated := generated[layers[i].name := artifact.value];
    }
    assert inputs[..|layers|] == inputs;
    r := Ok(generated);
  }

  /**
   * The default export of build/svg.ts as corrected (see the findings in the README),
   * given the file's text; reading the file is not modelled. The transformer as the
   * source writes it is `TransformAsWritten`.
   */
  method Transform(tools: XmlTools, join: (string, string) -> string, source: string, fileName: string)
    returns (r: Result<map<string, Artifact>, SvgError>)
    ensures r == Transformed(tools, join, source, fileName)
  {
    var xml := tools.fromXml(source);
    var validated := Validate(xml);
    if validated.Err? {
      return Err(validated.error);
    }
    var effectiveLayers := SplitLayers(join, validated.value, fileName);
    r := Generate(tools, effectiveLayers);
  }

  /**
   * What the transformer returns. It fails with the validation error when the document
   * has the wrong shape, otherwise exactly when the optimiser's output for some layer has
   * no elements. On success there is one entry per distinct effective-layer name (only
   * `fileName` when the file is not split), each with code `engineSvg`.
   */
  lemma TransformedOutputs(tools: XmlTools, join: (string, string) -> string, source: string, fileName: string)
    ensures var xml := tools.fromXml(source);
      var r := Transformed(tools, join, source, fileName);
      && (Validate(xml).Err? ==> r == Err(Validate(xml).error))
      && (Validate(xml).Ok? ==>
            var layers := EffectiveLayers(join, Validate(xml).value, fileName);
            && (r.Ok? <==> AllSucceed(tools, EscapeText, SerialiserInputs(layers)))
            && (r.Ok? ==> forall k :: k in r.value <==> exists i :: 0 <= i < |layers| && layers[i].name == k)
            && (r.Ok? ==> forall k :: k in r.value ==> r.value[k].code == "engineSvg")
            && (r.Ok? && !Splits(Considered(Validate(xml).value.children)) ==> r.value.Keys == {fileName}))
  {
    var xml := tools.fromXml(source);
    if Validate(xml).Ok? {
      var doc := Validate(xml).value;
      var layers := EffectiveLayers(join, doc, fileName);
      CollectIsOverlay(tools, EscapeText, SerialiserInputs(layers));
      if Collect(tools, EscapeText, SerialiserInputs(layers)).Ok? {
        forall k ensures var generated := Collect(tools, EscapeText, SerialiserInputs(layers)).value;
          && (k in generated <==> exists i :: 0 <= i < |layers| && layers[i].name == k)
          && (k in generated ==> generated[k].code == "engineSvg")
        {
          GeneratedEntry(tools, layers, k);
        }
      }
    }
  }

  /** The names generated from effective layers are exactly the layers' names. */
  lemma GeneratedEntry(tools: XmlTools, layers: seq<EffectiveLayer>, k: string)
    requires Collect(tools, EscapeText, SerialiserInputs(layers)).Ok?
    ensures var generated := Collect(tools, EscapeText, SerialiserInputs(layers)).value;
      && (k in generated <==> exists i :: 0 <= i < |layers| && layers[i].name == k)
      && (k in generated ==> generated[k].code == "engineSvg")
  {
    var inputs := SerialiserInputs(layers);
    CollectEntry(tools, EscapeText, inputs, k);
    if exists i :: 0 <= i < |inputs| && inputs[i].0 == k {
      var i :| 0 <= i < |inputs| && inputs[i].0 == k;
      assert layers[i].name == k;
    }
    if exists i :: 0 <= i < |layers| && layers[i].name == k {
      var i :| 0 <= i < |layers| && layers[i].name == k;
      assert inputs[i].0 == k;
    }
  }

  // ---------------------------------------------------------------------------
  // The transformer as written: shared `defs` objects escaped in place per layer
  // ---------------------------------------------------------------------------

  function EscapeEach(esc: string -> string, es: seq<Element>): (r: seq<Element>)
    ensures |r| == |es|
  {
    seq(|es|, i requires 0 <= i < |es| => EscapeTree(esc, es[i]))
  }

  /** `es` after `n` in-place escaping passes. */
  function EscapedTimes(esc: string -> string, n: nat, es: seq<Element>): (r: seq<Element>)
    ensures |r| == |es|
  {
    if n == 0 then es else EscapeEach(esc, EscapedTimes(esc, n - 1, es))
  }

  /**
   * The trees handed to the serialiser as the source is written. Every split document
   * holds the SAME `defs` objects (line 158), and `escapeAttributes` rewrites them in place
   * (line 200), so by the time layer `i` is escaped they have already been escaped once
   * for each earlier layer. Escaping replaces only the first occurrence of each character.
   */
  function AsWrittenInputs(join: (string, string) -> string, doc: Document, fileName: string): seq<(string, Element)>
    requires ValidDocument(doc)
  {
    var elements := Considered(doc.children);
    var shared, layers := SharedBetweenLayers(elements), Layers(elements);
    if Splits(elements) then AsWrittenPerLayer(join, doc, fileName, shared, layers)
    else [(fileName, EscapeTree(EscapeFirstOnly, doc.xml))]
  }

  /** Layer `i`'s serialiser input as written: its document, with `shared` escaped `i` times before. */
  function AsWrittenPerLayer(join: (string, string) -> string, doc: Document, fileName: string, shared: seq<Element>, layers: seq<Element>)
    : (r: seq<(string, Element)>)
    requires ValidDocument(doc)
    ensures |r| == |layers|
  {
    seq(|layers|, i requires 0 <= i < |layers| =>
      (LayerName(join, fileName, layers[i]),
       EscapeTree(EscapeFirstOnly, LayerTree(doc, EscapedTimes(EscapeFirstOnly, i, shared), layers[i]))))
  }

  function TransformedAsWritten(tools: XmlTools, join: (string, string) -> string, source: string, fileName: string)
    : Result<map<string, Artifact>, SvgError>
  {
    match Validate(tools.fromXml(source))
    case Err(e) => Err(e)
    case Ok(doc) => Collect(tools, EscapeFirstOnly, AsWrittenInputs(join, doc, fileName))
  }

  /** One turn of the output loop: an assignment on success, the error otherwise. */
  lemma CollectStep(tools: XmlTools, esc: string -> string, inputs: seq<(string, Element)>, i: nat, generated: map<string, Artifact>)
    requires i < |inputs| && Collect(tools, esc, inputs[..i]) == Ok(generated)
    ensures var a := LayerArtifact(tools, esc, inputs[i].1);
      Collect(tools, esc, inputs[..i + 1]) == if a.Err? then Err(a.error) else Ok(generated[inputs[i].0 := a.value])
  {
    assert inputs[..i + 1][..i] == inputs[..i];
  }

  /** The output loop of lines 197-228 as written, over the layers of a split document. */
  method GenerateAsWritten(tools: XmlTools, join: (string, string) -> string, doc: Document, fileName: string,
                           defs: seq<Element>, layers: seq<Element>)
    returns (r: Result<map<string, Artifact>, SvgError>)
    requires ValidDocument(doc)
    ensures r == Collect(tools, EscapeFirstOnly, AsWrittenPerLayer(join, doc, fileName, defs, layers))
  {
    ghost var inputs := AsWrittenPerLayer(join, doc, fileName, defs, layers);
    // the `defs` objects that every split document refers to
    var shared := defs;
    var generated: map<string, Artifact> := map[];
    assert inputs[..0] == [];
    for i := 0 to |layers|
      invariant shared == EscapedTimes(EscapeFirstOnly, i, defs)
      invariant Collect(tools, EscapeFirstOnly, inputs[..i]) == Ok(generated)
    {
      CollectStep(tools, EscapeFirstOnly, inputs, i, generated);
      var name := LayerName(join, fileName, layers[i]);
      // escapeAttributes(layer.xml) walks this layer's document, which holds `shared` itself ...
      var input := EscapeTree(EscapeFirstOnly, LayerTree(doc, shared, layers[i]));
      // ... so the shared objects stay escaped for every later layer
      shared := EscapeEach(EscapeFirstOnly, shared);
      var artifact := LayerArtifact(tools, EscapeFirstOnly, input);
      if artifact.Err? {
        CollectKeepsError(tools, EscapeFirstOnly, inputs, i + 1);
        return Err(artifact.error);
      }
      generated := generated[name := artifact.value];
    }
    assert inputs[..|layers|] == inputs;
    r := Ok(generated);
  }

  /** Lines 92-231 as written, with the in-place escaping of the shared `defs` made explicit. */
  method TransformAsWritten(tools: XmlTools, join: (string, string) -> string, source: string, fileName: string)
    returns (r: Result<map<string, Artifact>, SvgError>)
    ensures r == TransformedAsWritten(tools, join, source, fileName)
  {
    var xml := tools.fromXml(source);
    var validated := Validate(xml);
    if validated.Err? {
      return Err(validated.error);
    }
    var doc := validated.value;
    if Splits(Considered(doc.children)) {
      var elements := Considered(doc.children);
      r := GenerateAsWritten(tools, join, doc, fileName, SharedBetweenLayers(elements), Layers(elements));
    } else {
      ghost var inputs := AsWrittenInputs(join, doc, fileName);
      var input := EscapeTree(EscapeFirstOnly, doc.xml);
      assert inputs == [(fileName, input)];
      assert inputs[..0] == [] && inputs[..1] == inputs;
      CollectStep(tools, EscapeFirstOnly, inputs, 0, map[]);
      var artifact := LayerArtifact(tools, EscapeFirstOnly, input);
      if artifact.Err? {
        return Err(artifact.error);
      }
      r := Ok(map[fileName := artifact.value]);
    }
  }

  /**
   * As written, the serialiser of the second layer receives the shared elements after
   * two escaping passes: one in place while the first layer was escaped, one for itself.
   */
  lemma SecondLayerInput(join: (string, string) -> string, doc: Document, fileName: string)
    requires ValidDocument(doc)
    requires Splits(Considered(doc.children))
    ensures var elements := Considered(doc.children);
      var shared, layers := SharedBetweenLayers(elements), Layers(elements);
      && |AsWrittenInputs(join, doc, fileName)| == |layers| == |EffectiveLayers(join, doc, fileName)|
      && AsWrittenInputs(join, doc, fileName)[1].1 ==
           EscapeTree(EscapeFirstOnly, LayerTree(doc, EscapeEach(EscapeFirstOnly, shared), layers[1]))
      && EffectiveLayers(join, doc, fileName)[1].xml == LayerTree(doc, shared, layers[1])
  {
    var elements := Considered(doc.children);
    var shared := SharedBetweenLayers(elements);
    assert EscapedTimes(EscapeFirstOnly, 1, shared) == EscapeEach(EscapeFirstOnly, shared);
  }

  // A two-layer file whose one `defs` element carries the attribute id.

  function SampleDefs(id: string): Element {
    Element("element", "defs", Some(map["id" := Str(id)]), Absent, "")
  }

  function SampleLayer(name: string): Element {
    Element("element", "g", Some(map["inkscape:groupmode" := Str("layer"), "inkscape:label" := Str(name)]), Absent, "")
  }

  function SampleRoot(id: string): Element {
    Element("element", "svg", Some(map[]), Present([SampleDefs(id), SampleLayer("a"), SampleLayer("b")]), "")
  }

  function SampleDocument(id: string): Document {
    Document(Element("", "", None, Present([SampleRoot(id)]), ""), 0, [SampleDefs(id), SampleLayer("a"), SampleLayer("b")])
  }

  /** A `defs` followed by two layers is split, with the `defs` shared by both layers. */
  lemma DefsAndTwoLayers(defs: Element, a: Element, b: Element)
    requires IsConsidered(defs) && IsConsidered(a) && IsConsidered(b)
    requires IsDefs(defs) && IsLayer(a) && IsLayer(b)
    ensures Considered([defs, a, b]) == [defs, a, b]
    ensures SharedBetweenLayers([defs, a, b]) == [defs]
    ensures Layers([defs, a, b]) == [a, b]
    ensures Splits([defs, a, b])
  {
    var s := [defs, a, b];
    assert s[1..] == [a, b] && s[1..][1..] == [b] && s[1..][1..][1..] == [];
    assert Filter(IsDefs, [b]) == [] && Filter(IsDefs, [a, b]) == [];
    assert Filter(IsLayer, [b]) == [b] && Filter(IsLayer, [a, b]) == [a, b];
    assert Filter(IsConsidered, [b]) == [b] && Filter(IsConsidered, [a, b]) == [a, b];
  }

  lemma SampleClassification(id: string)
    ensures ValidDocument(SampleDocument(id))
    ensures Considered(SampleDocument(id).children) == SampleDocument(id).children
    ensures SharedBetweenLayers(SampleDocument(id).children) == [SampleDefs(id)]
    ensures Layers(SampleDocument(id).children) == [SampleLayer("a"), SampleLayer("b")]
    ensures Splits(SampleDocument(id).children)
  {
    var doc := SampleDocument(id);
    assert FindRoot(doc.xml.elements.items) == Some(0);
    assert !StartsWith("defs", "sodipodi:") && !StartsWith("g", "sodipodi:");
    DefsAndTwoLayers(SampleDefs(id), SampleLayer("a"), SampleLayer("b"));
  }

  /** A string whose only special character is the `&` it starts with. */
  predicate OnlyLeadingAmp(s: string) {
    && |s| >= 1 && s[0] == '&' && '&' !in s[1..]
    && '<' !in s && '>' !in s && '"' !in s && '\'' !in s
  }

  /** A string without any of the four markup characters passes the last four replacements unchanged. */
  lemma NoneOfMarkup(s: string)
    requires '<' !in s && '>' !in s && '"' !in s && '\'' !in s
    ensures ReplaceFirst(ReplaceFirst(ReplaceFirst(ReplaceFirst(s, '<', "&lt;"), '>', "&gt;"), '"', "&quot;"), '\'', "&#39;") == s
  {
  }

  /** The first replacement of the chain turns the leading `&` into `&amp;`. */
  lemma ReplaceLeadingAmp(s: string)
    requires OnlyLeadingAmp(s)
    ensures ReplaceFirst(s, '&', "&amp;") == "&amp;" + s[1..]
  {
    assert IndexOf(s, '&') == 0;
  }

  /** `&amp;` followed by the rest of such a value is again of that form. */
  lemma AmpPrefixKeepsForm(s: string)
    requires OnlyLeadingAmp(s)
    ensures OnlyLeadingAmp("&amp;" + s[1..])
  {
    var t := "&amp;" + s[1..];
    assert t[1..] == "amp;" + s[1..];
    assert forall i :: 0 <= i < 5 ==> t[i] in "&amp;";
    assert forall i :: 5 <= i < |t| ==> t[i] == s[i - 4];
  }

  /** The escaping chain as written turns the leading `&` into `&amp;` and leaves the rest alone. */
  lemma EscapeLeadingAmp(s: string)
    requires OnlyLeadingAmp(s)
    ensures EscapeFirstOnly(s) == "&amp;" + s[1..]
    ensures OnlyLeadingAmp(EscapeFirstOnly(s))
  {
    ReplaceLeadingAmp(s);
    AmpPrefixKeepsForm(s);
    NoneOfMarkup("&amp;" + s[1..]);
  }

  /** A string without special characters is its own full escape. */
  lemma {:induction false} EscapePlain(s: string)
    requires '&' !in s && '<' !in s && '>' !in s && '"' !in s && '\'' !in s
    ensures EscapeText(s) == s
  {
    if s != [] {
      EscapePlain(s[1..]);
    }
  }

  /** A string without `&` is its own decoding. */
  lemma {:induction false} UnescapePlain(s: string)
    requires '&' !in s
    ensures Unescape(s) == s
  {
    if s != [] {
      assert s[0] != '&' && '&' !in s[1..];
      UnescapePlain(s[1..]);
    }
  }

  /** `&amp;` followed by text without `&` decodes to `&` followed by that text. */
  lemma UnescapeLeadingAmp(r: string)
    requires '&' !in r
    ensures Unescape("&amp;" + r) == "&" + r
  {
    var s := "&amp;" + r;
    assert s[..5] == "&amp;";
    assert EntityAt(s) == Some(('&', 5));
    assert s[5..] == r;
    UnescapePlain(r);
  }

  /** Escaping every special character of such a string also gives `&amp;` followed by the rest. */
  lemma EscapeTextLeadingAmp(s: string)
    requires OnlyLeadingAmp(s)
    ensures EscapeText(s) == "&amp;" + s[1..]
  {
    EscapePlain(s[1..]);
  }

  /** The `id` attribute of the first child of the document's first element, if there is one. */
  function FirstChildId(xml: Element): Option<AttrValue> {
    if && xml.elements.Present? && |xml.elements.items| > 0
       && xml.elements.items[0].elements.Present? && |xml.elements.items[0].elements.items| > 0
       && xml.elements.items[0].elements.items[0].attributes.Some?
       && "id" in xml.elements.items[0].elements.items[0].attributes.value
    then Some(xml.elements.items[0].elements.items[0].attributes.value["id"])
    else None
  }

  /**
   * As written, the second layer's serialiser receives the shared `defs` escaped twice.
   * For any id that starts with its only `&` (id="&", say) the value arrives as
   * `&amp;amp;` followed by the rest, and decodes to `&amp;` followed by the rest rather
   * than to the id; with each document escaped once it arrives as `&amp;` followed by
   * the rest and decodes to the id.
   */
  lemma SharedDefsEscapedTwice(join: (string, string) -> string, id: string)
    requires OnlyLeadingAmp(id)
    ensures ValidDocument(SampleDocument(id))
    ensures var doc := SampleDocument(id);
      var asWritten := AsWrittenInputs(join, doc, "f");
      var layers := EffectiveLayers(join, doc, "f");
      && |asWritten| == 2 && |layers| == 2
      && FirstChildId(layers[1].xml) == Some(Str(id))
      && FirstChildId(asWritten[1].1) == Some(Str("&amp;amp;" + id[1..]))
      && FirstChildId(UnescapeTree(asWritten[1].1)) == Some(Str("&amp;" + id[1..]))
      && FirstChildId(SerialiserInputs(layers)[1].1) == Some(Str("&amp;" + id[1..]))
      && UnescapeTree(asWritten[1].1) != CoerceTree(layers[1].xml)
      && UnescapeTree(SerialiserInputs(layers)[1].1) == CoerceTree(layers[1].xml)
  {
    var doc := SampleDocument(id);
    SampleSecondLayer(join, id);
    var layers := EffectiveLayers(join, doc, "f");
    SampleFirstChildIds(join, id);
    var decoded := UnescapeTree(AsWrittenInputs(join, doc, "f")[1].1);
    assert FirstChildId(decoded) != FirstChildId(CoerceTree(layers[1].xml)) by {
      assert |"&amp;" + id[1..]| == |id| + 4;
    }
    SerialiserInputsDecode(layers);
  }

  /** The sample's `id` as each input carries it, and as each decodes. */
  lemma SampleFirstChildIds(join: (string, string) -> string, id: string)
    requires OnlyLeadingAmp(id)
    ensures ValidDocument(SampleDocument(id))
    ensures var doc := SampleDocument(id);
      var asWritten := AsWrittenInputs(join, doc, "f");
      var layers := EffectiveLayers(join, doc, "f");
      && |asWritten| == 2 && |layers| == 2
      && FirstChildId(layers[1].xml) == Some(Str(id))
      && FirstChildId(CoerceTree(layers[1].xml)) == Some(Str(id))
      && FirstChildId(asWritten[1].1) == Some(Str("&amp;amp;" + id[1..]))
      && FirstChildId(UnescapeTree(asWritten[1].1)) == Some(Str("&amp;" + id[1..]))
      && FirstChildId(SerialiserInputs(layers)[1].1) == Some(Str("&amp;" + id[1..]))
  {
    var doc := SampleDocument(id);
    var defs, b := SampleDefs(id), SampleLayer("b");
    SampleSecondLayer(join, id);
    var layers := EffectiveLayers(join, doc, "f");
    LayerTreeId(doc, [defs], b);
    CoercedId(layers[1].xml);
    var sent := AsWrittenInputs(join, doc, "f")[1].1;
    TwiceEscapedId(doc, defs, b, id);
    DecodeTwice(id[1..]);
    DecodedId(sent);
    EscapeTextLeadingAmp(id);
    EscapedId(EscapeText, layers[1].xml);
  }

  /** `&amp;amp;` followed by text without `&` decodes to `&amp;` followed by that text. */
  lemma DecodeTwice(r: string)
    requires '&' !in r
    ensures Unescape("&amp;amp;" + r) == "&amp;" + r
  {
    AmpAmp(r);
    UnescapeLeadingAmp("amp;" + r);
    assert "&" + ("amp;" + r) == "&amp;" + r;
  }

  /** Two as-written escaping passes over a shared element whose `id` starts with its only `&`. */
  lemma TwiceEscapedId(doc: Document, defs: Element, layer: Element, id: string)
    requires ValidDocument(doc) && doc.root == 0 && OnlyLeadingAmp(id)
    requires defs.attributes.Some? && "id" in defs.attributes.value && defs.attributes.value["id"] == Str(id)
    ensures FirstChildId(EscapeTree(EscapeFirstOnly, LayerTree(doc, EscapeEach(EscapeFirstOnly, [defs]), layer)))
      == Some(Str("&amp;amp;" + id[1..]))
  {
    var tree := LayerTree(doc, EscapeEach(EscapeFirstOnly, [defs]), layer);
    OnceEscapedSharedId(doc, defs, layer, id);
    EscapedTail(id);
    EscapedLeadingAmpId(tree, EscapeFirstOnly(id), "amp;" + id[1..]);
    AmpAmp(id[1..]);
  }

  lemma EscapedTail(s: string)
    requires OnlyLeadingAmp(s)
    ensures OnlyLeadingAmp(EscapeFirstOnly(s)) && EscapeFirstOnly(s)[1..] == "amp;" + s[1..]
  {
    EscapeLeadingAmp(s);
    DropFirst("&amp;", s[1..]);
    assert "&amp;"[1..] == "amp;";
  }

  lemma DropFirst(a: string, r: string)
    requires |a| >= 1
    ensures (a + r)[1..] == a[1..] + r
  {
  }

  lemma AmpAmp(r: string)
    ensures "&amp;" + ("amp;" + r) == "&amp;amp;" + r
  {
  }

  /** After one in-place pass, the layer document's first shared element carries the once-escaped `id`. */
  lemma OnceEscapedSharedId(doc: Document, defs: Element, layer: Element, id: string)
    requires ValidDocument(doc) && doc.root == 0
    requires defs.attributes.Some? && "id" in defs.attributes.value && defs.attributes.value["id"] == Str(id)
    ensures FirstChildId(LayerTree(doc, EscapeEach(EscapeFirstOnly, [defs]), layer)) == Some(Str(EscapeFirstOnly(id)))
  {
    var once := EscapeEach(EscapeFirstOnly, [defs]);
    assert once[0] == EscapeTree(EscapeFirstOnly, defs);
    assert once[0].attributes.value["id"] == Str(EscapeFirstOnly(id));
    LayerTreeId(doc, once, layer);
  }

  /** The as-written escape of a tree whose first child's `id` starts with its only `&`. */
  lemma EscapedLeadingAmpId(xml: Element, id: string, rest: string)
    requires FirstChildId(xml) == Some(Str(id)) && OnlyLeadingAmp(id) && id[1..] == rest
    ensures FirstChildId(EscapeTree(EscapeFirstOnly, xml)) == Some(Str("&amp;" + rest))
  {
    EscapedId(EscapeFirstOnly, xml);
    EscapeLeadingAmp(id);
  }

  /** In the sample, both the as-written and the corrected second input start from the same layer document. */
  lemma SampleSecondLayer(join: (string, string) -> string, id: string)
    ensures ValidDocument(SampleDocument(id))
    ensures var doc := SampleDocument(id);
      var asWritten := AsWrittenInputs(join, doc, "f");
      var layers := EffectiveLayers(join, doc, "f");
      && |asWritten| == 2 && |layers| == 2
      && layers[1].xml == LayerTree(doc, [SampleDefs(id)], SampleLayer("b"))
      && asWritten[1].1 == EscapeTree(EscapeFirstOnly, LayerTree(doc, EscapeEach(EscapeFirstOnly, [SampleDefs(id)]), SampleLayer("b")))
  {
    SampleClassification(id);
    SecondLayerInput(join, SampleDocument(id), "f");
  }

  /** Escaping a tree escapes the first child's `id` as it escapes every attribute. */
  lemma EscapedId(esc: string -> string, xml: Element)
    ensures FirstChildId(xml).Some? ==>
      FirstChildId(EscapeTree(esc, xml)) == Some(Str(esc(CoerceToString(FirstChildId(xml).value))))
  {
    if FirstChildId(xml).Some? {
      var t := EscapeTree(esc, xml);
      assert t.elements.items[0] == EscapeTree(esc, xml.elements.items[0]);
      assert t.elements.items[0].elements.items[0] == EscapeTree(esc, xml.elements.items[0].elements.items[0]);
    }
  }

  /** Decoding a tree decodes the first child's string `id`. */
  lemma DecodedId(xml: Element)
    ensures FirstChildId(xml).Some? && FirstChildId(xml).value.Str? ==>
      FirstChildId(UnescapeTree(xml)) == Some(Str(Unescape(FirstChildId(xml).value.s)))
  {
    if FirstChildId(xml).Some? {
      var t := UnescapeTree(xml);
      assert t.elements.items[0] == UnescapeTree(xml.elements.items[0]);
      assert t.elements.items[0].elements.items[0] == UnescapeTree(xml.elements.items[0].elements.items[0]);
    }
  }

  /** Coercing a tree coerces the first child's `id`. */
  lemma CoercedId(xml: Element)
    ensures FirstChildId(xml).Some? ==>
      FirstChildId(CoerceTree(xml)) == Some(Str(CoerceToString(FirstChildId(xml).value)))
  {
    if FirstChildId(xml).Some? {
      var t := CoerceTree(xml);
      assert t.elements.items[0] == CoerceTree(xml.elements.items[0]);
      assert t.elements.items[0].elements.items[0] == CoerceTree(xml.elements.items[0].elements.items[0]);
    }
  }

  /** In a split document whose root comes first, the first child is the first shared element. */
  lemma LayerTreeId(doc: Document, shared: seq<Element>, layer: Element)
    requires ValidDocument(doc) && doc.root == 0 && |shared| > 0
    requires shared[0].attributes.Some? && "id" in shared[0].attributes.value
    ensures FirstChildId(LayerTree(doc, shared, layer)) == Some(shared[0].attributes.value["id"])
  {
  }
}

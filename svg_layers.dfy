/**
 * The structural part of the SVG transformer (build/svg.ts:109-188): checking the parsed
 * document's shape, choosing the root's children that matter, deciding whether the
 * file was drawn in Inkscape, and splitting it into one document per Inkscape layer
 * with the layer's derived name.
 */
module SvgLayers {
  import opened Common
  import opened SvgTree

  /** The errors the transformer throws. */
  datatype SvgError =
    | NoElements              // "The file contains no elements."
    | NoRootElement           // "The file contains no root element."
    | RootHasNoElements       // "The root element contains no elements."
    | OptimizedHasNoElements  // the "should never happen" check on the optimiser's output

  predicate IsSvgRoot(e: Element) {
    e.kind == "element" && e.name == "svg"
  }

  /** `elements.find(...)`: the index of the first `svg` element, if any. */
  function FindRoot(cs: seq<Element>): (r: Option<nat>)
    ensures r.Some? ==> r.value < |cs| && IsSvgRoot(cs[r.value])
    ensures r.Some? ==> forall j :: 0 <= j < r.value ==> !IsSvgRoot(cs[j])
    ensures r.None? <==> forall j :: 0 <= j < |cs| ==> !IsSvgRoot(cs[j])
  {
    if cs == [] then None
    else if IsSvgRoot(cs[0]) then Some(0)
    else match FindRoot(cs[1..])
      case None => None
      case Some(i) => Some(i + 1)
  }

  /** A parsed file that passed validation: `xml`, the index of its root, and the root's children. */
  datatype Document = Document(xml: Element, root: nat, children: seq<Element>)

  predicate ValidDocument(doc: Document) {
    && doc.xml.elements.Present?
    && FindRoot(doc.xml.elements.items) == Some(doc.root)
    && doc.xml.elements.items[doc.root].elements == Present(doc.children)
  }

  /** The three shape checks of build/svg.ts:109-120, in order. */
  function Validate(xml: Element): (r: Result<Document, SvgError>)
    ensures r == Err(NoElements) <==> xml.elements.Absent?
    ensures r == Err(NoRootElement) <==>
      xml.elements.Present? && forall j :: 0 <= j < |xml.elements.items| ==> !IsSvgRoot(xml.elements.items[j])
    ensures r == Err(RootHasNoElements) <==>
      xml.elements.Present? && FindRoot(xml.elements.items).Some? &&
      xml.elements.items[FindRoot(xml.elements.items).value].elements.Absent?
    ensures r.Err? ==> r.error != OptimizedHasNoElements
    ensures r.Ok? ==> ValidDocument(r.value) && r.value.xml == xml
  {
    match xml.elements
    case Absent => Err(NoElements)
    case Present(items) =>
      match FindRoot(items)
      case None => Err(NoRootElement)
      case Some(root) =>
        match items[root].elements
        case Absent => Err(RootHasNoElements)
        case Present(children) => Ok(Document(xml, root, children))
  }

  // ---------------------------------------------------------------------------
  // Filtering and classification (build/svg.ts:121-128)
  // ---------------------------------------------------------------------------

  /** Line 123. */
  predicate IsElement(e: Element) {
    e.kind == "element"
  }

  /** Line 124: a name, and not Inkscape's editor data. */
  predicate HasPlainName(e: Element) {
    e.name != "" && !StartsWith(e.name, "sodipodi:")
  }

  /** Line 125. */
  predicate IsNotMetadata(e: Element) {
    e.name != "metadata"
  }

  /** The three filters of lines 121-125 as one: an element, with a name, not Inkscape's editor data, not metadata. */
  predicate IsConsidered(e: Element) {
    e.kind == "element" && e.name != "" && !StartsWith(e.name, "sodipodi:") && e.name != "metadata"
  }

  predicate IsDefs(e: Element) {
    e.name == "defs"
  }

  predicate IsLayer(e: Element) {
    && e.name == "g"
    && e.attributes.Some?
    && "inkscape:groupmode" in e.attributes.value
    && e.attributes.value["inkscape:groupmode"] == Str("layer")
  }

  function Considered(children: seq<Element>): seq<Element> {
    Filter(IsConsidered, children)
  }

  function SharedBetweenLayers(elements: seq<Element>): seq<Element> {
    Filter(IsDefs, elements)
  }

  function Layers(elements: seq<Element>): seq<Element> {
    Filter(IsLayer, elements)
  }

  /** Line 128: the counts of `defs` and of layers add up to the number of considered elements. */
  predicate IsInkscape(elements: seq<Element>) {
    |Layers(elements)| + |SharedBetweenLayers(elements)| == |elements|
  }

  /**
   * The chain of three filters keeps exactly the children that pass all three, in
   * document order: it is one filter by `IsConsidered`, which maps a concatenation of
   * children to the concatenation of the kept ones.
   */
  lemma ConsideredChildren(children: seq<Element>, more: seq<Element>)
    ensures Filter(IsNotMetadata, Filter(HasPlainName, Filter(IsElement, children))) == Considered(children)
    ensures forall i :: 0 <= i < |Considered(children)| ==>
      Considered(children)[i] in children && IsConsidered(Considered(children)[i])
    ensures forall i :: 0 <= i < |children| && IsConsidered(children[i]) ==> children[i] in Considered(children)
    ensures Considered(children + more) == Considered(children) + Considered(more)
  {
    var both := (e: Element) => IsElement(e) && HasPlainName(e);
    FilterFilter(IsElement, HasPlainName, both, children);
    FilterFilter(both, IsNotMetadata, IsConsidered, children);
    FilterAppend(IsConsidered, children, more);
  }

  /** The count test of line 128 holds exactly when every considered element is a `defs` or a layer. */
  lemma InkscapeIffDefsOrLayers(elements: seq<Element>)
    ensures IsInkscape(elements) <==> forall i :: 0 <= i < |elements| ==> IsDefs(elements[i]) || IsLayer(elements[i])
  {
    DisjointFiltersCover(IsLayer, IsDefs, elements);
  }

  /** Line 133: the file is split only when it is from Inkscape and has more than one layer. */
  predicate Splits(elements: seq<Element>) {
    IsInkscape(elements) && |Layers(elements)| > 1
  }

  // ---------------------------------------------------------------------------
  // Layer naming (build/svg.ts:160-171)
  // ---------------------------------------------------------------------------

  /** The layer's `inkscape:label` attribute, coerced to a string ("" when missing). */
  function Label(layer: Element): (r: string)
    ensures layer.attributes.None? || "inkscape:label" !in layer.attributes.value ==> r == ""
  {
    if layer.attributes.Some? && "inkscape:label" in layer.attributes.value then
      CoerceToString(layer.attributes.value["inkscape:label"])
    else
      CoerceToString(Undefined)
  }

  /** What is appended to the joined path for a label ending in a slash or a backslash. */
  function LabelSuffix(layerLabel: string): string {
    if layerLabel == "/" || EndsWith(layerLabel, "\\/") || EndsWith(layerLabel, "//") then "//"
    else if layerLabel == "\\" || EndsWith(layerLabel, "\\\\") || EndsWith(layerLabel, "/\\") then "/\\"
    else ""
  }

  predicate IsSlash(c: char) {
    c == '/' || c == '\\'
  }

  /**
   * The suffix rule stated by the label's last two characters: a label whose last
   * character is a slash (or a backslash) gets `//` (or `/\`) exactly when it is that
   * single character or the character before it is itself a slash or a backslash;
   * every other label gets no suffix.
   */
  lemma LabelSuffixRule(layerLabel: string)
    ensures LabelSuffix(layerLabel) == "//" <==>
      |layerLabel| >= 1 && layerLabel[|layerLabel| - 1] == '/' && (|layerLabel| == 1 || IsSlash(layerLabel[|layerLabel| - 2]))
    ensures LabelSuffix(layerLabel) == "/\\" <==>
      |layerLabel| >= 1 && layerLabel[|layerLabel| - 1] == '\\' && (|layerLabel| == 1 || IsSlash(layerLabel[|layerLabel| - 2]))
    ensures LabelSuffix(layerLabel) == "" <==>
      |layerLabel| == 0 || !IsSlash(layerLabel[|layerLabel| - 1]) || (|layerLabel| >= 2 && !IsSlash(layerLabel[|layerLabel| - 2]))
  {
    var n := |layerLabel|;
    if n >= 2 {
      assert EndsWith(layerLabel, "\\/") <==> layerLabel[n - 2] == '\\' && layerLabel[n - 1] == '/' by {
        assert layerLabel[n - 2..] == [layerLabel[n - 2], layerLabel[n - 1]];
      }
      assert EndsWith(layerLabel, "//") <==> layerLabel[n - 2] == '/' && layerLabel[n - 1] == '/' by {
        assert layerLabel[n - 2..] == [layerLabel[n - 2], layerLabel[n - 1]];
      }
      assert EndsWith(layerLabel, "\\\\") <==> layerLabel[n - 2] == '\\' && layerLabel[n - 1] == '\\' by {
        assert layerLabel[n - 2..] == [layerLabel[n - 2], layerLabel[n - 1]];
      }
      assert EndsWith(layerLabel, "/\\") <==> layerLabel[n - 2] == '/' && layerLabel[n - 1] == '\\' by {
        assert layerLabel[n - 2..] == [layerLabel[n - 2], layerLabel[n - 1]];
      }
      assert layerLabel != "/" && layerLabel != "\\";
    } else if n == 1 {
      assert layerLabel == "/" <==> layerLabel[0] == '/';
      assert layerLabel == "\\" <==> layerLabel[0] == '\\';
    }
  }

  /** `paths.join(fileName, layerName)` plus the suffix; `join` is the path-naming service. */
  function LayerName(join: (string, string) -> string, fileName: string, layer: Element): string {
    join(fileName, Label(layer)) + LabelSuffix(Label(layer))
  }

  // ---------------------------------------------------------------------------
  // Splitting (build/svg.ts:129-188)
  // ---------------------------------------------------------------------------

  /** One output of the transformer before compression: its name and its document. */
  datatype EffectiveLayer = EffectiveLayer(name: string, xml: Element)

  /** `delete layer.attributes.style` (line 144), which re-shows hidden layers. */
  function WithoutStyle(layer: Element): (r: Element)
    ensures r.attributes.Some? <==> layer.attributes.Some?
    ensures r.attributes.Some? ==> "style" !in r.attributes.value
    ensures layer.attributes.Some? ==> r.attributes.value == layer.attributes.value - {"style"}
    ensures r.(attributes := layer.attributes) == layer
  {
    match layer.attributes
    case None => layer
    case Some(m) => layer.(attributes := Some(m - {"style"}))
  }

  /**
   * The document of one split layer (lines 137-158): a copy of the whole file whose
   * root's children are replaced by the shared `defs` followed by the layer.
   */
  function LayerTree(doc: Document, shared: seq<Element>, layer: Element): Element
    requires ValidDocument(doc)
  {
    var items := doc.xml.elements.items;
    doc.xml.(elements := Present(items[doc.root := items[doc.root].(elements := Present(shared + [WithoutStyle(layer)]))]))
  }

  /** The outputs lines 129-188 collect: one per layer when split, otherwise the file itself. */
  function EffectiveLayers(join: (string, string) -> string, doc: Document, fileName: string): seq<EffectiveLayer>
    requires ValidDocument(doc)
  {
    var elements := Considered(doc.children);
    var shared, layers := SharedBetweenLayers(elements), Layers(elements);
    if Splits(elements) then PerLayer(join, doc, fileName, shared, layers)
    else [EffectiveLayer(fileName, doc.xml)]
  }

  /** One output per layer, each holding `shared` and that layer. */
  function PerLayer(join: (string, string) -> string, doc: Document, fileName: string, shared: seq<Element>, layers: seq<Element>)
    : (r: seq<EffectiveLayer>)
    requires ValidDocument(doc)
    ensures |r| == |layers|
  {
    seq(|layers|, i requires 0 <= i < |layers| =>
      EffectiveLayer(LayerName(join, fileName, layers[i]), LayerTree(doc, shared, layers[i])))
  }

  /** The loop of lines 135-177: one output per layer, in layer order. */
  method SplitEach(join: (string, string) -> string, doc: Document, fileName: string, shared: seq<Element>, layers: seq<Element>)
    returns (effectiveLayers: seq<EffectiveLayer>)
    requires ValidDocument(doc)
    ensures effectiveLayers == PerLayer(join, doc, fileName, shared, layers)
  {
    ghost var expected := PerLayer(join, doc, fileName, shared, layers);
    effectiveLayers := [];
    for i := 0 to |layers|
      invariant effectiveLayers == expected[..i]
    {
      var layerXml := LayerTree(doc, shared, layers[i]);
      var name := LayerName(join, fileName, layers[i]);
      effectiveLayers := effectiveLayers + [EffectiveLayer(name, layerXml)];
      assert expected[..i + 1] == expected[..i] + [expected[i]];
    }
    assert expected[..|layers|] == expected;
  }

  /** Lines 129-188: split into layers, or the single push of lines 184-187. */
  method SplitLayers(join: (string, string) -> string, doc: Document, fileName: string)
    returns (effectiveLayers: seq<EffectiveLayer>)
    requires ValidDocument(doc)
    ensures effectiveLayers == EffectiveLayers(join, doc, fileName)
  {
    var elements := Considered(doc.children);
    var layers := Layers(elements);
    if IsInkscape(elements) && |layers| > 1 {
      effectiveLayers := SplitEach(join, doc, fileName, SharedBetweenLayers(elements), layers);
    } else {
      effectiveLayers := [EffectiveLayer(fileName, doc.xml)];
    }
  }

  /**
   * What splitting produces. When the file is split there is one output per layer, in
   * layer order, named by the layer's layerLabel; each output is the original file except that
   * the root's children are the shared `defs` in document order followed by that one
   * layer, without its `style`: the document node and the root keep every other field.
   * Otherwise there is exactly one output, named after the
   * file, holding the unmodified document.
   */
  lemma EffectiveLayersShape(join: (string, string) -> string, doc: Document, fileName: string)
    requires ValidDocument(doc)
    ensures var elements := Considered(doc.children);
      var eff, shared, layers := EffectiveLayers(join, doc, fileName), SharedBetweenLayers(elements), Layers(elements);
      && (!Splits(elements) ==> eff == [EffectiveLayer(fileName, doc.xml)])
      && (Splits(elements) ==> |eff| == |layers| > 1 && forall i :: 0 <= i < |eff| ==>
            && eff[i].name == LayerName(join, fileName, layers[i])
            && var items, newItems := doc.xml.elements.items, eff[i].xml.elements.items;
            && |newItems| == |items|
            && (forall j :: 0 <= j < |items| && j != doc.root ==> newItems[j] == items[j])
            && newItems[doc.root].elements.items == shared + [WithoutStyle(layers[i])]
            && newItems[doc.root].attributes == items[doc.root].attributes
            && eff[i].xml.(elements := doc.xml.elements) == doc.xml
            && newItems[doc.root].(elements := items[doc.root].elements) == items[doc.root]
            && "style" !in newItems[doc.root].elements.items[|shared|].attributes.value)
  {
    var elements := Considered(doc.children);
    var layers := Layers(elements);
    if Splits(elements) {
      forall i | 0 <= i < |layers| ensures IsLayer(layers[i]) && layers[i].attributes.Some? {
        assert layers[i] in layers;
      }
    }
  }
}

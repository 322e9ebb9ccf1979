/** The graphics drawn for query results (`addGraphics`), all sharing one highlight symbol. */
module Graphics {
  import opened Features
  import opened SymbolSize

  datatype Option<T> = None | Some(value: T)

  /** A marker symbol object. The shared highlight symbol starts without a `size`
      property; `Object.assign(symbol, {size: ...})` sets it in place and returns the
      same object. Colours and outline are rendering details and are not modelled. */
  class MarkerSymbol {
    const kind: string
    var size: Option<nat>

    /** The module-level `highlightSymbol`: a yellow simple marker with no size yet. */
    constructor HighlightSymbol()
      ensures kind == "simple-marker" && size == None
    {
      kind := "simple-marker";
      size := None;
    }

    /** `Object.assign(this, {size: s})`: overwrites the size and returns this very object. */
    method AssignSize(s: nat) returns (same: MarkerSymbol)
      modifies this
      ensures same == this && size == Some(s)
    {
      size := Some(s);
      same := this;
    }
  }

  /** A graphic: a geometry, attributes and a reference to the symbol it was given. */
  class Graphic {
    const geometry: Point
    const attributes: Attributes
    const symbol: MarkerSymbol

    constructor (geometry: Point, attributes: Attributes, symbol: MarkerSymbol)
      ensures this.geometry == geometry && this.attributes == attributes && this.symbol == symbol
    {
      this.geometry := geometry;
      this.attributes := attributes;
      this.symbol := symbol;
    }
  }

  /** The graphics layer added to the map: the graphics it shows, in insertion order. */
  class GraphicsLayer {
    var graphics: seq<Graphic>

    constructor ()
      ensures graphics == []
    {
      graphics := [];
    }

    /** `removeAll()`. */
    method RemoveAll()
      modifies this
      ensures graphics == []
    {
      graphics := [];
    }

    /** `add(g)`. */
    method Add(g: Graphic)
      modifies this
      ensures graphics == old(graphics) + [g]
    {
      graphics := graphics + [g];
    }
  }

  /** `addGraphics(result)`: empties the layer, then adds one new graphic per feature, in
      order, each a distinct new object with that feature's geometry and attributes. Every
      graphic references the one shared `highlightSymbol`, whose size each iteration
      overwrites, so afterwards all of them reference one symbol whose size is the
      classification of the last feature's `pop2000`. */
  method AddGraphics(graphicsLayer: GraphicsLayer, highlightSymbol: MarkerSymbol, features: seq<Feature>)
    modifies graphicsLayer, highlightSymbol
    ensures |graphicsLayer.graphics| == |features|
    ensures forall i :: 0 <= i < |features| ==>
      var g := graphicsLayer.graphics[i];
      fresh(g) && g.geometry == features[i].geometry && g.attributes == features[i].attributes
    ensures forall k, l :: 0 <= k < l < |features| ==> graphicsLayer.graphics[k] != graphicsLayer.graphics[l]
    ensures forall g :: g in graphicsLayer.graphics ==> g.symbol == highlightSymbol
    ensures features == [] ==> highlightSymbol.size == old(highlightSymbol.size)
    ensures features != [] ==>
      highlightSymbol.size == Some(Classify(features[|features| - 1].attributes.pop2000, STOPS))
  {
    graphicsLayer.RemoveAll();
    for i := 0 to |features|
      invariant |graphicsLayer.graphics| == i
      invariant forall k :: 0 <= k < i ==>
        var g := graphicsLayer.graphics[k];
        fresh(g) && g.geometry == features[k].geometry && g.attributes == features[k].attributes
      invariant forall k, l :: 0 <= k < l < i ==> graphicsLayer.graphics[k] != graphicsLayer.graphics[l]
      invariant forall g :: g in graphicsLayer.graphics ==> g.symbol == highlightSymbol
      invariant i == 0 ==> highlightSymbol.size == old(highlightSymbol.size)
      invariant i > 0 ==> highlightSymbol.size == Some(Classify(features[i - 1].attributes.pop2000, STOPS))
    {
      var feature := features[i];
      var population := feature.attributes.pop2000;
      var size := GetSymbolSize(population);
      var symbol := highlightSymbol.AssignSize(size);
      var g := new Graphic(feature.geometry, feature.attributes, symbol);
      graphicsLayer.Add(g);
    }
  }
}

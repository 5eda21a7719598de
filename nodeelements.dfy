/** The graph pipeline's element extractor: coordinate serialisation with
    its point filtering, the high-resolution re-partition when no element
    has coordinates, and the skip rule for blank elements. The partitioner
    and the conversion of strings to floats are parameters. */
module NodeElements {
  import opened Wrappers
  import opened Text
  import opened Elements

  /** `float(v)`: numbers convert, strings as the parser says, None and
      other objects do not. */
  function ToFloat(v: Value, parse: string -> Option<real>): Option<real> {
    match v
    case Num(r) => Some(r)
    case Str(s) => parse(s)
    case _ => None
  }

  /** The coordinates of a point that is a dictionary, or a list or tuple of
      length two, and whose two coordinates both convert. */
  function PointOf(p: RawPoint, parse: string -> Option<real>): Option<(real, real)> {
    var xy: Option<(Value, Value)> :=
      match p
      case PointDict(x, y) => Some((x, y))
      case PointSeq(items) => if |items| == 2 then Some((items[0], items[1])) else None
      case NotAPoint => None;
    if xy.None? then None
    else
      var x, y := ToFloat(xy.value.0, parse), ToFloat(xy.value.1, parse);
      if x.Some? && y.Some? then Some((x.value, y.value)) else None
  }

  /** `normalized_points`: the points that convert, in order. */
  function KeptPoints(points: seq<RawPoint>, parse: string -> Option<real>): (r: seq<(real, real)>)
    ensures |r| <= |points|
  {
    if |points| == 0 then []
    else
      var p := PointOf(points[|points| - 1], parse);
      KeptPoints(points[..|points| - 1], parse) + (if p.Some? then [p.value] else [])
  }

  /** The filter works point by point: it keeps the order of the points, and
      keeps none exactly when none converts. */
  lemma {:induction false} KeptPointsAppend(a: seq<RawPoint>, b: seq<RawPoint>, parse: string -> Option<real>)
    ensures KeptPoints(a + b, parse) == KeptPoints(a, parse) + KeptPoints(b, parse)
    decreases |b|
  {
    if |b| == 0 {
      assert a + b == a;
    } else {
      var u := b[..|b| - 1];
      assert (a + b)[..|a + b| - 1] == a + u;
      KeptPointsAppend(a, u, parse);
    }
  }

  lemma {:induction false} KeptPointsEmpty(points: seq<RawPoint>, parse: string -> Option<real>)
    ensures KeptPoints(points, parse) == [] <==> forall k :: 0 <= k < |points| ==> PointOf(points[k], parse).None?
    decreases |points|
  {
    if |points| > 0 {
      var u := points[..|points| - 1];
      KeptPointsEmpty(u, parse);
      assert forall k :: 0 <= k < |u| ==> u[k] == points[k];
    }
  }

  lemma KeptPointsStep(points: seq<RawPoint>, i: nat, parse: string -> Option<real>)
    requires i < |points|
    ensures KeptPoints(points[..i + 1], parse)
            == KeptPoints(points[..i], parse)
               + (if PointOf(points[i], parse).Some? then [PointOf(points[i], parse).value] else [])
  {
    assert points[..i + 1][..i] == points[..i];
  }

  /** The loop of `_serialize_coordinates` over the points. */
  method NormalizePoints(points: seq<RawPoint>, parse: string -> Option<real>) returns (r: seq<(real, real)>)
    ensures r == KeptPoints(points, parse)
  {
    r := [];
    for i := 0 to |points|
      invariant r == KeptPoints(points[..i], parse)
    {
      KeptPointsStep(points, i, parse);
      var p := PointOf(points[i], parse);
      if p.Some? {
        r := r + [p.value];
      }
    }
    assert points[..|points|] == points;
  }

  /** The serialised coordinates: the dictionary with only its points replaced. */
  datatype Bbox = Bbox(points: seq<(real, real)>, system: Option<string>,
                       layoutWidth: Option<real>, layoutHeight: Option<real>)

  /** `_serialize_coordinates(metadata)` */
  function Serialized(meta: Option<ElementMeta>, parse: string -> Option<real>): (b: Option<Bbox>)
    ensures b.Some? <==> meta.Some? && meta.value.coordinates.Some?
                         && meta.value.coordinates.value.points.Some?
                         && KeptPoints(meta.value.coordinates.value.points.value, parse) != []
    ensures b.Some? ==>
              var c := meta.value.coordinates.value;
              b.value == Bbox(KeptPoints(c.points.value, parse), c.system, c.layoutWidth, c.layoutHeight)
  {
    if meta.None? || meta.value.coordinates.None? then None
    else
      var c := meta.value.coordinates.value;
      if c.points.None? || |c.points.value| == 0 then None
      else
        var kept := KeptPoints(c.points.value, parse);
        if |kept| == 0 then None
        else Some(Bbox(kept, c.system, c.layoutWidth, c.layoutHeight))
  }

  /** `_serialize_coordinates(metadata)`, with its loop. */
  method SerializeCoordinates(meta: Option<ElementMeta>, parse: string -> Option<real>) returns (b: Option<Bbox>)
    ensures b == Serialized(meta, parse)
  {
    if meta.None? || meta.value.coordinates.None? {
      return None;
    }
    var c := meta.value.coordinates.value;
    if c.points.None? || |c.points.value| == 0 {
      return None;
    }
    var kept := NormalizePoints(c.points.value, parse);
    if |kept| == 0 {
      return None;
    }
    return Some(Bbox(kept, c.system, c.layoutWidth, c.layoutHeight));
  }

  /** The element record of the graph pipeline. */
  datatype NodeElement = NodeElement(
    docId: string,
    etype: string,
    text: string,
    page: Option<int>,
    bbox: Option<Bbox>,
    caption: Option<string>)

  /** The elements used: a non-empty first partition none of whose elements
      has coordinates is replaced by the high-resolution partition, unless
      that raised (None). */
  function Partitioned(first: seq<RawElement>, hiRes: Option<seq<RawElement>>,
                       parse: string -> Option<real>): seq<RawElement>
  {
    if |first| > 0 && (forall k :: 0 <= k < |first| ==> Serialized(first[k].meta, parse).None?)
       && hiRes.Some?
    then hiRes.value
    else first
  }

  /** What one element becomes: nothing when its text is blank; the text
      itself is kept as it is. */
  function NodeOf(el: RawElement, docId: string, parse: string -> Option<real>): Option<NodeElement> {
    var text := el.text.GetOr("");
    if Strip(text) == "" then None
    else Some(NodeElement(docId, MapCategory(el.category), text, PageOf(el), Serialized(el.meta, parse), None))
  }

  function Nodes(els: seq<RawElement>, docId: string, parse: string -> Option<real>): (r: seq<NodeElement>)
    ensures |r| <= |els|
    ensures forall k :: 0 <= k < |r| ==>
              r[k].docId == docId && r[k].caption.None? && Strip(r[k].text) != ""
              && (r[k].etype == "title" || r[k].etype == "table" || r[k].etype == "text")
  {
    if |els| == 0 then []
    else
      var n := NodeOf(els[|els| - 1], docId, parse);
      Nodes(els[..|els| - 1], docId, parse) + (if n.Some? then [n.value] else [])
  }

  /** Elements are converted one by one in their order, and the output is
      empty exactly when every element is blank. */
  lemma {:induction false} NodesAppend(a: seq<RawElement>, b: seq<RawElement>, docId: string,
                                       parse: string -> Option<real>)
    ensures Nodes(a + b, docId, parse) == Nodes(a, docId, parse) + Nodes(b, docId, parse)
    decreases |b|
  {
    if |b| == 0 {
      assert a + b == a;
    } else {
      var u := b[..|b| - 1];
      assert (a + b)[..|a + b| - 1] == a + u;
      NodesAppend(a, u, docId, parse);
    }
  }

  lemma {:induction false} NodesEmpty(els: seq<RawElement>, docId: string, parse: string -> Option<real>)
    ensures Nodes(els, docId, parse) == [] <==> forall k :: 0 <= k < |els| ==> Strip(els[k].text.GetOr("")) == ""
    decreases |els|
  {
    if |els| > 0 {
      var u := els[..|els| - 1];
      NodesEmpty(u, docId, parse);
      assert forall k :: 0 <= k < |u| ==> u[k] == els[k];
    }
  }

  lemma NodesStep(els: seq<RawElement>, i: nat, docId: string, parse: string -> Option<real>)
    requires i < |els|
    ensures Nodes(els[..i + 1], docId, parse)
            == Nodes(els[..i], docId, parse)
               + (if NodeOf(els[i], docId, parse).Some? then [NodeOf(els[i], docId, parse).value] else [])
  {
    assert els[..i + 1][..i] == els[..i];
  }

  /** `extract_elements(doc_path, doc_id)`, given the first partition and
      the high-resolution one. */
  method ExtractNodeElements(first: seq<RawElement>, hiRes: Option<seq<RawElement>>, docId: string,
                             parse: string -> Option<real>) returns (out: seq<NodeElement>)
    ensures out == Nodes(Partitioned(first, hiRes, parse), docId, parse)
  {
    var elements := Partitioned(first, hiRes, parse);
    out := [];
    for i := 0 to |elements|
      invariant out == Nodes(elements[..i], docId, parse)
    {
      var el := elements[i];
      var t := MapCategory(el.category);
      var text := el.text.GetOr("");
      var page := PageOf(el);
      NodesStep(elements, i, docId, parse);
      if Strip(text) != "" {
        var bbox := SerializeCoordinates(el.meta, parse);
        out := out + [NodeElement(docId, t, text, page, bbox, None)];
      }
    }
    assert elements[..|elements|] == elements;
  }
}

/**
 * The markup in which the floor-plan layer persists its freehand paths
 * (FloorPlanLayer.tsx, encode at lines 97-99 and decode at lines 34-51).
 *
 * Encode wraps one `<path d="...">` element per path in an `<svg>` root.
 * Decode is a parser for exactly that grammar: it returns the `d`
 * attributes in document order, drops the empty ones, and yields no paths
 * for empty markup or for markup it cannot parse.
 */
module SvgCodec {

  import opened Common

  const SvgOpen: string := "<svg xmlns=\"http://www.w3.org/2000/svg\">"
  const SvgClose: string := "</svg>"
  const PathOpen: string := "<path d=\""
  const PathClose: string := "\"" + " fill=\"none\" stroke=\"#666\" stroke-width=\"2\" />"

  /** The markup the editor stores when the plan is cleared (FloorPlanEditor.tsx:281). */
  const ClearedPlan: string := "<svg xmlns=\"http://www.w3.org/2000/svg\"></svg>"

  /** Paths the codec can carry: non-empty `d` values without a double quote. */
  predicate Storable(ps: seq<string>) {
    forall i :: 0 <= i < |ps| ==> ps[i] != "" && QuoteFree(ps[i])
  }

  /**
   * Attribute text that an XML parser returns as written: no double quote,
   * no `&` or `<` (which start a reference or markup), and no tab, CR or LF
   * (which attribute-value normalisation turns into spaces).
   */
  predicate Plain(d: string) {
    forall i :: 0 <= i < |d| ==> d[i] !in "\"&<\t\r\n"
  }

  lemma PlainConcat(a: string, b: string)
    requires Plain(a) && Plain(b)
    ensures Plain(a + b)
  {
    forall i | 0 <= i < |a + b| ensures (a + b)[i] !in "\"&<\t\r\n" {
      if i < |a| { assert (a + b)[i] == a[i]; } else { assert (a + b)[i] == b[i - |a|]; }
    }
  }

  function PathElement(d: string): string {
    PathOpen + d + PathClose
  }

  /** `paths.map(path => <path .../>).join('')` */
  function PathElements(ps: seq<string>): string {
    if ps == [] then "" else PathElement(ps[0]) + PathElements(ps[1..])
  }

  function Encode(ps: seq<string>): string {
    SvgOpen + PathElements(ps) + SvgClose
  }

  /** The index of the first double quote in `s`, or |s| if there is none. */
  function QuoteIndex(s: string): (k: nat)
    ensures k <= |s|
    ensures QuoteFree(s[..k])
    ensures k < |s| ==> s[k] == '"'
  {
    if s == [] then 0
    else if s[0] == '"' then 0
    else
      var k := 1 + QuoteIndex(s[1..]);
      assert s[..k] == [s[0]] + s[1..][..k - 1];
      k
  }

  /** Parses `(<path d="D" fill=.../>)* </svg>` into the list of the D values. */
  function ParseElements(s: string): (r: Option<seq<string>>)
    ensures r.Some? ==> forall i :: 0 <= i < |r.value| ==> QuoteFree(r.value[i])
    decreases |s|
  {
    if s == SvgClose then Some([])
    else if StartsWith(s, PathOpen) then
      var rest := s[|PathOpen|..];
      var k := QuoteIndex(rest);
      var after := rest[k..];
      if StartsWith(after, PathClose) then
        match ParseElements(after[|PathClose|..])
        case None => None
        case Some(ds) => Some([rest[..k]] + ds)
      else None
    else None
  }

  /** `.filter((p) => p)`: keeps the non-empty strings, in order. */
  function NonEmpty(ds: seq<string>): (r: seq<string>)
    ensures forall i :: 0 <= i < |r| ==> r[i] != ""
    ensures forall d :: d in r <==> d in ds && d != ""
    ensures (forall i :: 0 <= i < |ds| ==> QuoteFree(ds[i])) ==> Storable(r)
  {
    if ds == [] then []
    else if ds[0] == "" then NonEmpty(ds[1..])
    else [ds[0]] + NonEmpty(ds[1..])
  }

  /** The paths a layer loads from `svgData`; empty or unreadable markup gives none. */
  function Decode(svg: string): (r: seq<string>)
    ensures Storable(r)
  {
    if svg == "" then []
    else if StartsWith(svg, SvgOpen) then
      match ParseElements(svg[|SvgOpen|..])
      case None => []
      case Some(ds) => NonEmpty(ds)
    else []
  }

  lemma {:induction false} NonEmptyKeepsStorable(ds: seq<string>)
    requires Storable(ds)
    ensures NonEmpty(ds) == ds
  {
    if ds != [] {
      NonEmptyKeepsStorable(ds[1..]);
    }
  }

  lemma SplitAfterPrefix(a: string, b: string)
    ensures StartsWith(a + b, a)
    ensures (a + b)[|a|..] == b
  {
    assert (a + b)[..|a|] == a;
  }

  /** One step of the parser: a path element followed by more markup. */
  lemma ParseElementStep(d: string, tail: string)
    requires QuoteFree(d)
    ensures ParseElements(PathElement(d) + tail) ==
      match ParseElements(tail)
      case None => None
      case Some(ds) => Some([d] + ds)
  {
    var s := PathElement(d) + tail;
    var after := PathClose + tail;
    assert s == PathOpen + (d + after);
    SplitAfterPrefix(PathOpen, d + after);
    assert s[1] == 'p' && SvgClose[1] == '/';
    var rest := s[|PathOpen|..];
    assert PathClose[0] == '"';
    assert after[0] == '"';
    QuoteIndexOfQuoteFree(d, after);
    SplitAfterPrefix(d, after);
    assert rest[..|d|] == d;
    SplitAfterPrefix(PathClose, tail);
  }

  lemma {:induction false} ParseElementsOfEncoding(ps: seq<string>)
    requires forall i :: 0 <= i < |ps| ==> QuoteFree(ps[i])
    ensures ParseElements(PathElements(ps) + SvgClose) == Some(ps)
  {
    if ps == [] {
      assert PathElements(ps) + SvgClose == SvgClose;
    } else {
      var tail := PathElements(ps[1..]) + SvgClose;
      assert PathElements(ps) + SvgClose == PathElement(ps[0]) + tail;
      ParseElementStep(ps[0], tail);
      ParseElementsOfEncoding(ps[1..]);
      assert [ps[0]] + ps[1..] == ps;
    }
  }

  lemma QuoteIndexOfQuoteFree(p: string, t: string)
    requires QuoteFree(p)
    requires |t| > 0 && t[0] == '"'
    ensures QuoteIndex(p + t) == |p|
    decreases |p|
  {
    if p != [] {
      assert (p + t)[1..] == p[1..] + t;
      QuoteIndexOfQuoteFree(p[1..], t);
    } else {
      assert p + t == t;
    }
  }

  /** Round trip: decoding the encoding of quote-free paths keeps exactly the non-empty ones, in order. */
  lemma DecodeEncodeFilters(ps: seq<string>)
    requires forall i :: 0 <= i < |ps| ==> QuoteFree(ps[i])
    ensures Decode(Encode(ps)) == NonEmpty(ps)
  {
    EncodeAfterRoot(ps);
    ParseElementsOfEncoding(ps);
    DecodeAfterRoot(PathElements(ps) + SvgClose);
  }

  /** The markup is the root element's opening followed by the path elements and the closing tag. */
  lemma EncodeAfterRoot(ps: seq<string>)
    ensures Encode(ps) == SvgOpen + (PathElements(ps) + SvgClose)
  {
  }

  /** Markup that opens with the root element is decoded from what follows it. */
  lemma DecodeAfterRoot(body: string)
    ensures Decode(SvgOpen + body) ==
      match ParseElements(body)
      case None => []
      case Some(ds) => NonEmpty(ds)
  {
    SplitAfterPrefix(SvgOpen, body);
    assert |SvgOpen + body| > 0;
  }

  /** Round trip: paths the layer commits survive encode then decode unchanged. */
  lemma DecodeEncode(ps: seq<string>)
    requires Storable(ps)
    ensures Decode(Encode(ps)) == ps
  {
    DecodeEncodeFilters(ps);
    NonEmptyKeepsStorable(ps);
  }

  /** Encoding no paths is the cleared plan, and that decodes to no paths. */
  lemma ClearedPlanIsEmptyEncoding()
    ensures Encode([]) == ClearedPlan
    ensures Decode(ClearedPlan) == []
  {
    DecodeEncode([]);
  }

  /** Encoding is injective on storable paths: distinct plans give distinct markup. */
  lemma EncodeInjective(ps: seq<string>, qs: seq<string>)
    requires Storable(ps) && Storable(qs)
    ensures Encode(ps) == Encode(qs) <==> ps == qs
  {
    if Encode(ps) == Encode(qs) {
      DecodeEncode(ps);
      DecodeEncode(qs);
    }
  }
}

/** The GPX 1.1 document the export button produces: a fixed header, one
    snack waypoint per result record in list order, a start waypoint at the
    user's position when one is known, and the closing tag. Coordinates are
    the text the page renders for them; `undefined` stands for a missing
    one. */
module GpxExport {
  import opened Wrappers
  import Text
  import Seqs
  import Normalizer

  const Header: string :=
    "<?xml version=\"1.0\" encoding=\"UTF-8\"?>\n"
    + "<gpx version=\"1.1\" creator=\"Snack Radar\" xmlns=\"http://www.topografix.com/GPX/1/1\">\n"
    + "  <metadata><name>Snack Radar Export</name></metadata>"

  const Footer: string := "\n</gpx>"

  /** The name of a record that has none. */
  const Placeholder: string := "Snack Spot"

  /** The name of the start waypoint. */
  const StartName: string := "You are here"

  datatype Kind = Snack | Start

  /** One `<wpt>` element: coordinates as rendered, name, optional
      description, and the `<type>` it carries. */
  datatype Waypoint = Waypoint(lat: string, lon: string, name: string, desc: Option<string>, kind: Kind)

  /** A coordinate interpolated into a template: its text, or `undefined`. */
  function RenderCoord(c: Option<string>): string
  {
    c.GetOr("undefined")
  }

  /** The characters removed from waypoint names. */
  predicate Markup(c: char)
  {
    c == '<' || c == '>' || c == '&'
  }

  /** No character of `s` is removed by `Strip`. */
  predicate MarkupFree(s: string)
  {
    forall i :: 0 <= i < |s| ==> !Markup(s[i])
  }

  /** `s.replace(/[<>&]/g, '')`: every other character kept, in order,
      and as often as it occurs. */
  function Strip(s: string): (r: string)
    ensures MarkupFree(r)
    ensures Seqs.IsSubsequence(r, s)
    ensures forall c :: !Markup(c) ==> multiset(r)[c] == multiset(s)[c]
    ensures MarkupFree(s) ==> r == s
  {
    if s == [] then []
    else
      var rest := Strip(s[1..]);
      assert s == [s[0]] + s[1..];
      if Markup(s[0]) then rest
      else
        var r := [s[0]] + rest;
        assert r[1..] == rest;
        r
  }

  /** A name made only of markup characters is stripped to nothing. */
  lemma StripOnlyMarkup(s: string)
    requires forall i :: 0 <= i < |s| ==> Markup(s[i])
    ensures Strip(s) == ""
  {
  }

  /** The snack waypoint's name: the record's name (the placeholder when
      empty) with markup characters removed. */
  function WaypointName(m: Normalizer.Spot): (r: string)
    ensures MarkupFree(r)
    ensures m.name == "" ==> r == Placeholder
    ensures m.name != "" && MarkupFree(m.name) ==> r == m.name
    ensures m.name != "" ==> Seqs.IsSubsequence(r, m.name)
    ensures m.name != "" ==> forall c :: !Markup(c) ==> multiset(r)[c] == multiset(m.name)[c]
  {
    assert MarkupFree(Placeholder);
    Strip(if m.name != "" then m.name else Placeholder)
  }

  /** The placeholder is chosen before stripping, so a name made only of
      markup characters yields an empty waypoint name. */
  lemma MarkupOnlyNameIsEmpty(m: Normalizer.Spot)
    requires m.name != ""
    requires forall i :: 0 <= i < |m.name| ==> Markup(m.name[i])
    ensures WaypointName(m) == ""
  {
    StripOnlyMarkup(m.name);
  }

  /** The description: the shop tag (or nothing), a space, and `24/7` for
      round-the-clock places. It is not stripped. */
  function WaypointDesc(m: Normalizer.Spot): (r: string)
    ensures |r| == |Normalizer.Tag(m.tags, "shop")| + 1 + (if m.is24h then 4 else 0)
    ensures r[..|Normalizer.Tag(m.tags, "shop")|] == Normalizer.Tag(m.tags, "shop")
    ensures r[|Normalizer.Tag(m.tags, "shop")|] == ' '
    ensures r[|Normalizer.Tag(m.tags, "shop")| + 1..] == if m.is24h then "24/7" else ""
  {
    Normalizer.Tag(m.tags, "shop") + " " + (if m.is24h then "24/7" else "")
  }

  function SnackWaypoint(m: Normalizer.Spot): Waypoint
  {
    Waypoint(RenderCoord(m.lat), RenderCoord(m.lon), WaypointName(m), Some(WaypointDesc(m)), Snack)
  }

  function StartWaypoint(pos: (string, string)): Waypoint
  {
    Waypoint(pos.0, pos.1, StartName, None, Start)
  }

  /** The waypoints of an export, in document order. */
  function Waypoints(markers: seq<Normalizer.Spot>, userPos: Option<(string, string)>): (r: seq<Waypoint>)
    ensures |r| == |markers| + (if userPos.Some? then 1 else 0)
    ensures forall i :: 0 <= i < |markers| ==> r[i] == SnackWaypoint(markers[i])
    ensures forall i :: 0 <= i < |r| ==> (r[i].kind == Start <==> userPos.Some? && i == |markers|)
    ensures userPos.Some? ==> r[|markers|] == StartWaypoint(userPos.value)
    ensures forall i :: 0 <= i < |r| ==> MarkupFree(r[i].name)
  {
    assert MarkupFree(StartName);
    var snacks := SnackWaypoints(markers);
    if userPos.Some? then snacks + [StartWaypoint(userPos.value)] else snacks
  }

  /** `markers.forEach(...)`: one snack waypoint per record, in order. */
  function SnackWaypoints(markers: seq<Normalizer.Spot>): seq<Waypoint>
  {
    Seqs.Map(SnackWaypoint, markers)
  }

  function KindName(k: Kind): string
  {
    match k
    case Snack => "snack"
    case Start => "start"
  }

  /** One `<wpt>` element, starting on a new line. */
  function Block(w: Waypoint): string
  {
    "\n  <wpt lat=\"" + w.lat + "\" lon=\"" + w.lon + "\">"
    + "\n    <name>" + w.name + "</name>"
    + (match w.desc
       case Some(d) => "\n    <desc>" + d + "</desc>"
       case None => "")
    + "\n    <type>" + KindName(w.kind) + "</type>"
    + "\n  </wpt>"
  }

  function Blocks(ws: seq<Waypoint>): (r: seq<string>)
    ensures |r| == |ws|
    ensures forall i :: 0 <= i < |ws| ==> r[i] == Block(ws[i])
  {
    if ws == [] then [] else [Block(ws[0])] + Blocks(ws[1..])
  }

  /** Header, the blocks in order, footer. */
  function Document(ws: seq<Waypoint>): (r: string)
    ensures |r| >= |Header| + |Footer|
    ensures r[..|Header|] == Header
    ensures r[|r| - |Footer|..] == Footer
  {
    var body := Text.Concat(Blocks(ws));
    assert (Header + body + Footer)[..|Header|] == Header;
    Header + body + Footer
  }

  /** The document without its closing tag. */
  function Unclosed(doc: string): string
    requires |doc| >= |Footer|
  {
    doc[..|doc| - |Footer|]
  }

  /** Appending a waypoint inserts its block just before the closing tag
      and changes nothing else. */
  lemma DocumentAppend(ws: seq<Waypoint>, w: Waypoint)
    ensures Document(ws + [w]) == Unclosed(Document(ws)) + Block(w) + Footer
  {
    DocumentText(ws + [w]);
    DocumentText(ws);
    BodyAppend(ws, w);
    InsertBeforeLast(Header, Text.Concat(Blocks(ws)), Block(w), Footer);
  }

  lemma DocumentText(ws: seq<Waypoint>)
    ensures Document(ws) == Header + Text.Concat(Blocks(ws)) + Footer
  {
  }

  lemma BodyAppend(ws: seq<Waypoint>, w: Waypoint)
    ensures Text.Concat(Blocks(ws + [w])) == Text.Concat(Blocks(ws)) + Block(w)
  {
    var l := Blocks(ws + [w]);
    var r := Blocks(ws) + [Block(w)];
    forall i | 0 <= i < |l|
      ensures l[i] == r[i]
    {
      assert (ws + [w])[i] == if i < |ws| then ws[i] else w;
    }
    assert l == r;
    Text.ConcatSnoc(Blocks(ws), Block(w));
  }

  /** Framing `body + extra` equals framing `body`, dropping the closing
      part, and appending `extra` and the closing part. */
  lemma InsertBeforeLast(open: string, body: string, extra: string, close: string)
    ensures open + (body + extra) + close
            == (open + body + close)[..|open + body + close| - |close|] + extra + close
  {
    assert (open + body + close)[..|open + body + close| - |close|] == open + body;
  }

  /** `exportToGPX(markers, userPos)`, without the download. */
  function ExportGpx(markers: seq<Normalizer.Spot>, userPos: Option<(string, string)>): (r: string)
    ensures |r| >= |Header| + |Footer|
    ensures r[..|Header|] == Header && r[|r| - |Footer|..] == Footer
  {
    Document(Waypoints(markers, userPos))
  }

  /** A known position adds exactly the start waypoint, after every snack
      waypoint and before the closing tag. */
  lemma ExportWithStart(markers: seq<Normalizer.Spot>, pos: (string, string))
    ensures ExportGpx(markers, Some(pos))
            == Unclosed(ExportGpx(markers, None)) + Block(StartWaypoint(pos)) + Footer
  {
    assert Waypoints(markers, Some(pos)) == Waypoints(markers, None) + [StartWaypoint(pos)];
    DocumentAppend(Waypoints(markers, None), StartWaypoint(pos));
  }

  /** One more result record adds exactly its snack waypoint, before the
      closing tag; the earlier waypoints are untouched. */
  lemma ExportAppendMarker(markers: seq<Normalizer.Spot>, m: Normalizer.Spot)
    ensures ExportGpx(markers + [m], None)
            == Unclosed(ExportGpx(markers, None)) + Block(SnackWaypoint(m)) + Footer
  {
    WaypointsAppend(markers, m);
    DocumentAppend(Waypoints(markers, None), SnackWaypoint(m));
  }

  lemma WaypointsAppend(markers: seq<Normalizer.Spot>, m: Normalizer.Spot)
    ensures Waypoints(markers + [m], None) == Waypoints(markers, None) + [SnackWaypoint(m)]
  {
    Seqs.MapSnoc(SnackWaypoint, markers, m);
  }

  /** With no records and no position the export is the bare skeleton. */
  lemma ExportEmpty()
    ensures ExportGpx([], None) == Header + Footer
  {
    assert Waypoints([], None) == [];
    assert Blocks([]) == [];
  }
}

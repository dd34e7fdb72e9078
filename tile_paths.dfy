/**
 * Where a tile lives on disk and where it is fetched from: TileMapManager's getTilePath,
 * getTileUrl (QString::replace of the {x}, {y}, {z} and {server} placeholders with the
 * a/b/c server rotation), the TileInfo record handed to the worker, and
 * getMaxAvailableZoom over a listing of the cache directory.
 */
module TilePaths {
  import opened Wrappers
  import opened Decimal
  import opened TileGeometry

  // ---------------------------------------------------------------------------
  // Cache file path.

  /** `"%1/%2/%3/%4.png"` filled with the cache directory, zoom, x and y. */
  function TilePath(root: string, k: TileKey): string
  {
    root + "/" + IntToString(k.z) + "/" + IntToString(k.x) + "/" + IntToString(k.y) + ".png"
  }

  /** The text before and after the first occurrence of c, if any. */
  function SplitAt(s: string, c: char): Option<(string, string)>
    decreases |s|
  {
    if s == [] then None
    else if s[0] == c then Some(([], s[1..]))
    else match SplitAt(s[1..], c)
      case None => None
      case Some(parts) => Some(([s[0]] + parts.0, parts.1))
  }

  /** Reads the tile key back from a cache path under root. */
  function ParseTilePath(root: string, p: string): Option<TileKey>
  {
    var prefix := root + "/";
    if |p| < |prefix| || p[..|prefix|] != prefix then None
    else match SplitAt(p[|prefix|..], '/')
      case None => None
      case Some(zr) => match SplitAt(zr.1, '/')
        case None => None
        case Some(xr) =>
          var rest := xr.1;
          if |rest| < 4 || rest[|rest| - 4..] != ".png" then None
          else KeyOf(zr.0, xr.0, rest[..|rest| - 4])
  }

  /** The key named by three decimal path components, if all three parse. */
  function KeyOf(z: string, x: string, y: string): Option<TileKey>
  {
    match (ParseInt(z), ParseInt(x), ParseInt(y))
    case (Some(z), Some(x), Some(y)) => Some(TileKey(x, y, z))
    case _ => None
  }

  lemma {:induction false} SplitAtFirst(a: string, b: string, c: char)
    requires forall i :: 0 <= i < |a| ==> a[i] != c
    ensures SplitAt(a + [c] + b, c) == Some((a, b))
    decreases |a|
  {
    var s := a + [c] + b;
    if a == [] {
      assert s == [c] + b && s[1..] == b;
    } else {
      assert s[0] == a[0] != c;
      assert s[1..] == a[1..] + [c] + b;
      SplitAtFirst(a[1..], b, c);
      assert [a[0]] + a[1..] == a;
    }
  }

  /** A path root/z/x/y.png with slash-free z and x splits back into its three components. */
  lemma ParsePathParts(root: string, z: string, x: string, y: string)
    requires forall i :: 0 <= i < |z| ==> z[i] != '/'
    requires forall i :: 0 <= i < |x| ==> x[i] != '/'
    ensures ParseTilePath(root, root + "/" + z + "/" + x + "/" + y + ".png") == KeyOf(z, x, y)
  {
    var p := root + "/" + z + "/" + x + "/" + y + ".png";
    var prefix := root + "/";
    assert p == prefix + (z + "/" + x + "/" + y + ".png");
    assert p[..|prefix|] == prefix;
    assert p[|prefix|..] == z + ['/'] + (x + "/" + y + ".png");
    SplitAtFirst(z, x + "/" + y + ".png", '/');
    assert x + "/" + y + ".png" == x + ['/'] + (y + ".png");
    SplitAtFirst(x, y + ".png", '/');
    var rest := y + ".png";
    assert rest[|rest| - 4..] == ".png" && rest[..|rest| - 4] == y;
  }

  /** The cache path of a tile names that tile: parsing it gives the key back. */
  lemma ParseTilePathRoundTrip(root: string, k: TileKey)
    ensures ParseTilePath(root, TilePath(root, k)) == Some(k)
  {
    IntToStringPlain(k.z);
    IntToStringPlain(k.x);
    ParsePathParts(root, IntToString(k.z), IntToString(k.x), IntToString(k.y));
    ParseIntOfIntToString(k.z);
    ParseIntOfIntToString(k.x);
    ParseIntOfIntToString(k.y);
  }

  /** Distinct tiles never share a cache file. */
  lemma TilePathInjective(root: string, k1: TileKey, k2: TileKey)
    requires TilePath(root, k1) == TilePath(root, k2)
    ensures k1 == k2
  {
    ParseTilePathRoundTrip(root, k1);
    ParseTilePathRoundTrip(root, k2);
  }

  // ---------------------------------------------------------------------------
  // QString::replace and QString::contains.

  /** Every occurrence of pat replaced by rep, scanning left to right without rescanning. */
  function ReplaceAll(s: string, pat: string, rep: string): string
    requires |pat| > 0
    decreases |s|
  {
    if |s| < |pat| then s
    else if s[..|pat|] == pat then rep + ReplaceAll(s[|pat|..], pat, rep)
    else [s[0]] + ReplaceAll(s[1..], pat, rep)
  }

  predicate Contains(s: string, pat: string)
    decreases |s|
  {
    if |s| < |pat| then false
    else s[..|pat|] == pat || (|s| > 0 && Contains(s[1..], pat))
  }

  predicate NoBrace(s: string) { forall i :: 0 <= i < |s| ==> s[i] != '{' }

  /** A character that does not start an occurrence of the pattern is copied through. */
  lemma ReplaceStep(s: string, pat: string, rep: string)
    requires |pat| > 0 && |s| > 0
    requires |pat| <= |s| ==> s[..|pat|] != pat
    ensures ReplaceAll(s, pat, rep) == [s[0]] + ReplaceAll(s[1..], pat, rep)
  {
    if |s| < |pat| {
      assert ReplaceAll(s[1..], pat, rep) == s[1..];
      assert s == [s[0]] + s[1..];
    }
  }

  /** Text free of the pattern's first character passes through replacement unchanged. */
  lemma {:induction false} ReplaceSkip(a: string, b: string, pat: string, rep: string)
    requires |pat| > 0
    requires forall i :: 0 <= i < |a| ==> a[i] != pat[0]
    ensures ReplaceAll(a + b, pat, rep) == a + ReplaceAll(b, pat, rep)
    decreases |a|
  {
    if a == [] {
      assert a + b == b;
    } else {
      var s := a + b;
      assert s[0] == a[0];
      if |pat| <= |s| {
        assert s[..|pat|][0] == s[0];
      }
      ReplaceStep(s, pat, rep);
      assert s[1..] == a[1..] + b;
      ReplaceSkip(a[1..], b, pat, rep);
      var r := ReplaceAll(b, pat, rep);
      assert [a[0]] + (a[1..] + r) == ([a[0]] + a[1..]) + r;
      assert [a[0]] + a[1..] == a;
    }
  }

  lemma ReplaceHit(b: string, pat: string, rep: string)
    requires |pat| > 0
    ensures ReplaceAll(pat + b, pat, rep) == rep + ReplaceAll(b, pat, rep)
  {
    assert (pat + b)[..|pat|] == pat;
    assert (pat + b)[|pat|..] == b;
  }

  /** A piece that differs from the pattern at index j and repeats its first character nowhere else is kept. */
  lemma ReplaceForeign(q: string, b: string, pat: string, rep: string, j: nat)
    requires |pat| > 0 && j < |q| && j < |pat| && q[j] != pat[j]
    requires forall i :: 1 <= i < |q| ==> q[i] != pat[0]
    ensures ReplaceAll(q + b, pat, rep) == q + ReplaceAll(b, pat, rep)
  {
    var s := q + b;
    assert s[j] == q[j];
    if |pat| <= |s| {
      assert s[..|pat|][j] == s[j];
    }
    ReplaceStep(s, pat, rep);
    assert s[1..] == q[1..] + b;
    ReplaceSkip(q[1..], b, pat, rep);
    var r := ReplaceAll(b, pat, rep);
    assert [q[0]] + (q[1..] + r) == ([q[0]] + q[1..]) + r;
    assert [q[0]] + q[1..] == q;
  }

  lemma {:induction false} ContainsSkip(a: string, b: string, pat: string)
    requires Contains(b, pat)
    ensures Contains(a + b, pat)
    decreases |a|
  {
    if a != [] {
      assert (a + b)[1..] == a[1..] + b;
      ContainsSkip(a[1..], b, pat);
    } else {
      assert a + b == b;
    }
  }

  lemma {:induction false} NoBraceNotContains(s: string, pat: string)
    requires |pat| > 0 && pat[0] == '{' && NoBrace(s)
    ensures !Contains(s, pat)
    decreases |s|
  {
    if |s| >= |pat| {
      assert s[..|pat|][0] != pat[0];
      NoBraceNotContains(s[1..], pat);
    }
  }

  // ---------------------------------------------------------------------------
  // Templates as literal text and placeholders.

  datatype Piece = Lit(text: string) | Hole(name: string)

  function Placeholder(name: string): string { "{" + name + "}" }

  function PieceText(p: Piece): string
  {
    match p
    case Lit(t) => t
    case Hole(n) => Placeholder(n)
  }

  function Render(ps: seq<Piece>): string
    decreases |ps|
  {
    if ps == [] then "" else PieceText(ps[0]) + Render(ps[1..])
  }

  /** Literal text holds no '{' and placeholder names hold neither brace. */
  predicate PieceOk(p: Piece)
  {
    match p
    case Lit(t) => NoBrace(t)
    case Hole(n) => NoBrace(n) && forall c :: 0 <= c < |n| ==> n[c] != '}'
  }

  predicate WellFormed(ps: seq<Piece>)
  {
    forall i :: 0 <= i < |ps| ==> PieceOk(ps[i])
  }

  /** A piece with the named placeholder replaced by literal text. */
  function FillPiece(p: Piece, name: string, value: string): Piece
  {
    if p == Hole(name) then Lit(value) else p
  }

  /** Every occurrence of the named placeholder replaced by literal text. */
  function Fill(ps: seq<Piece>, name: string, value: string): (r: seq<Piece>)
  {
    seq(|ps|, i requires 0 <= i < |ps| => FillPiece(ps[i], name, value))
  }

  /** Two distinct placeholders differ at some index within both. */
  lemma PlaceholdersDiffer(n1: string, n2: string) returns (j: nat)
    requires n1 != n2
    requires forall c :: 0 <= c < |n1| ==> n1[c] != '}'
    requires forall c :: 0 <= c < |n2| ==> n2[c] != '}'
    ensures j < |Placeholder(n1)| && j < |Placeholder(n2)| && Placeholder(n1)[j] != Placeholder(n2)[j]
  {
    var p1, p2 := Placeholder(n1), Placeholder(n2);
    var m := if |n1| < |n2| then |n1| else |n2|;
    if c :| 0 <= c < m && n1[c] != n2[c] {
      j := c + 1;
      assert p1[j] == n1[c] && p2[j] == n2[c];
    } else if |n1| < |n2| {
      j := |n1| + 1;
      assert p1[j] == '}' && p2[j] == n2[|n1|];
    } else {
      assert |n2| < |n1|;
      j := |n2| + 1;
      assert p2[j] == '}' && p1[j] == n1[|n2|];
    }
  }

  /** Replacing a placeholder in a rendered template fills exactly that placeholder. */
  lemma {:induction false} ReplaceFills(ps: seq<Piece>, name: string, value: string)
    requires WellFormed(ps) && NoBrace(value) && forall c :: 0 <= c < |name| ==> name[c] != '}'
    ensures WellFormed(Fill(ps, name, value))
    ensures ReplaceAll(Render(ps), Placeholder(name), value) == Render(Fill(ps, name, value))
    decreases |ps|
  {
    var pat := Placeholder(name);
    if ps != [] {
      assert WellFormed(ps[1..]) by {
        forall i | 0 <= i < |ps[1..]| ensures ps[1..][i] == ps[i + 1] { }
      }
      ReplaceFills(ps[1..], name, value);
      var rest := Render(ps[1..]);
      assert Fill(ps, name, value)[1..] == Fill(ps[1..], name, value);
      match ps[0]
      case Lit(t) =>
        assert ps[0] == Lit(t);
        ReplaceSkip(t, rest, pat, value);
      case Hole(n) =>
        assert ps[0] == Hole(n);
        if n == name {
          ReplaceHit(rest, pat, value);
        } else {
          var j := PlaceholdersDiffer(n, name);
          ReplaceForeign(Placeholder(n), rest, pat, value, j);
        }
    }
  }

  lemma {:induction false} RenderContains(ps: seq<Piece>, name: string)
    requires Hole(name) in ps
    ensures Contains(Render(ps), Placeholder(name))
    decreases |ps|
  {
    if ps[0] == Hole(name) {
      var s := Render(ps);
      assert s[..|Placeholder(name)|] == Placeholder(name);
    } else {
      RenderContains(ps[1..], name);
      ContainsSkip(PieceText(ps[0]), Render(ps[1..]), Placeholder(name));
    }
  }

  // ---------------------------------------------------------------------------
  // getTileUrl.

  const Servers: seq<string> := ["a", "b", "c"]

  /** A position in the server rotation. */
  type ServerIndex = i: nat | i < |Servers|

  /** "https://{server}.tile.openstreetmap.org/{z}/{x}/{y}.png", written piece by piece. */
  const DefaultTemplate: string :=
    "https://" + ("{server}" + (".tile.openstreetmap.org/" + ("{z}" + ("/" + ("{x}" + ("/" + ("{y}" + ".png")))))))

  /** A tile's three indices as QString::number prints them. */
  datatype KeyText = KeyText(x: string, y: string, z: string)

  function Print(k: TileKey): (t: KeyText)
  {
    KeyText(IntToString(k.x), IntToString(k.y), IntToString(k.z))
  }

  predicate PlainText(t: KeyText) { NoBrace(t.x) && NoBrace(t.y) && NoBrace(t.z) }

  lemma PrintPlain(k: TileKey)
    ensures PlainText(Print(k))
  {
    IntToStringPlain(k.x);
    IntToStringPlain(k.y);
    IntToStringPlain(k.z);
  }

  /** The template with {x}, {y} and {z} replaced, in that order, by the printed indices. */
  function FillText(template: string, t: KeyText): string
  {
    ReplaceAll(ReplaceAll(ReplaceAll(template, "{x}", t.x), "{y}", t.y), "{z}", t.z)
  }

  /** Whether the URL still mentions {server} once the indices are filled in. */
  predicate UsesServerText(template: string, t: KeyText)
  {
    Contains(FillText(template, t), "{server}")
  }

  /** getTileUrl on printed indices: the URL and the next server index. */
  function UrlText(template: string, t: KeyText, serverIndex: nat): (r: (string, nat))
    requires serverIndex < |Servers|
  {
    var u := FillText(template, t);
    if UsesServerText(template, t) then
      (ReplaceAll(u, "{server}", Servers[serverIndex]), (serverIndex + 1) % |Servers|)
    else (u, serverIndex)
  }

  /** Whether the URL for k uses the server rotation. */
  predicate UsesServer(template: string, k: TileKey)
  {
    UsesServerText(template, Print(k))
  }

  /** The server index after building the URL for k: advanced modulo three when the URL uses it. */
  function NextServer(template: string, k: TileKey, serverIndex: nat): (r: nat)
    requires serverIndex < |Servers|
    ensures r < |Servers|
  {
    if UsesServer(template, k) then (serverIndex + 1) % |Servers| else serverIndex
  }

  /**
   * The URL for a tile and the next server index: {x}, {y} and {z} are replaced by the
   * decimal indices, then, if the URL still mentions {server}, it is replaced by the
   * server at the current index and the index advances modulo three.
   */
  function TileUrl(template: string, k: TileKey, serverIndex: nat): (r: (string, nat))
    requires serverIndex < |Servers|
    ensures r.1 == NextServer(template, k, serverIndex)
  {
    UrlText(template, Print(k), serverIndex)
  }

  lemma RenderStep(ps: seq<Piece>, i: nat)
    requires i < |ps|
    ensures Render(ps[i..]) == PieceText(ps[i]) + Render(ps[i + 1..])
  {
    assert ps[i..][1..] == ps[i + 1..];
  }

  const DefaultPieces: seq<Piece> :=
    [Lit("https://"), Hole("server"), Lit(".tile.openstreetmap.org/"), Hole("z"), Lit("/"),
     Hole("x"), Lit("/"), Hole("y"), Lit(".png")]

  /** A nine-piece template renders as its pieces' texts concatenated. */
  lemma RenderNine(ps: seq<Piece>)
    requires |ps| == 9
    ensures Render(ps) ==
      PieceText(ps[0]) + (PieceText(ps[1]) + (PieceText(ps[2]) + (PieceText(ps[3]) + (PieceText(ps[4]) +
      (PieceText(ps[5]) + (PieceText(ps[6]) + (PieceText(ps[7]) + PieceText(ps[8]))))))))
  {
    assert ps[9..] == [];
    assert Render(ps[8..]) == PieceText(ps[8]) + "" by { RenderStep(ps, 8); }
    assert PieceText(ps[8]) + "" == PieceText(ps[8]);
    RenderStep(ps, 7);
    RenderStep(ps, 6);
    RenderStep(ps, 5);
    RenderStep(ps, 4);
    RenderStep(ps, 3);
    RenderStep(ps, 2);
    RenderStep(ps, 1);
    RenderStep(ps, 0);
    assert ps[0..] == ps;
  }

  lemma PlaceholderTexts()
    ensures Placeholder("server") == "{server}"
    ensures Placeholder("x") == "{x}" && Placeholder("y") == "{y}" && Placeholder("z") == "{z}"
  {
  }

  lemma DefaultPiecesRender()
    ensures Render(DefaultPieces) == DefaultTemplate
  {
    PlaceholderTexts();
    RenderNine(DefaultPieces);
  }

  lemma DefaultPiecesWellFormed()
    ensures WellFormed(DefaultPieces)
  {
    assert PieceOk(Lit("https://"));
    assert PieceOk(Hole("server"));
    assert PieceOk(Lit(".tile.openstreetmap.org/"));
    assert PieceOk(Hole("z"));
    assert PieceOk(Lit("/"));
    assert PieceOk(Hole("x"));
    assert PieceOk(Hole("y"));
    assert PieceOk(Lit(".png"));
  }

  /** The URL the default template yields for printed indices and a server name. */
  function OsmUrl(server: string, t: KeyText): string
  {
    "https://" + (server + (".tile.openstreetmap.org/" + (t.z + ("/" + (t.x + ("/" + (t.y + ".png")))))))
  }

  function OsmPieces(server: string, t: KeyText): seq<Piece>
  {
    [Lit("https://"), Lit(server), Lit(".tile.openstreetmap.org/"), Lit(t.z), Lit("/"),
     Lit(t.x), Lit("/"), Lit(t.y), Lit(".png")]
  }

  lemma OsmPiecesRender(server: string, t: KeyText)
    ensures Render(OsmPieces(server, t)) == OsmUrl(server, t)
  {
    RenderNine(OsmPieces(server, t));
  }

  lemma DefaultPiecesFilled(server: string, t: KeyText)
    ensures FillAll(DefaultPieces, t, server) == OsmPieces(server, t)
  {
  }

  lemma ServerNamesPlain(i: nat)
    requires i < |Servers|
    ensures NoBrace(Servers[i])
  {
    assert Servers[0] == "a" && Servers[1] == "b" && Servers[2] == "c";
  }

  /** The {x}, {y} and {z} placeholders of a template filled with printed indices. */
  function FillCoordPieces(ps: seq<Piece>, t: KeyText): seq<Piece>
  {
    Fill(Fill(Fill(ps, "x", t.x), "y", t.y), "z", t.z)
  }

  /** Every placeholder of a template filled with printed indices and a server name. */
  function FillAll(ps: seq<Piece>, t: KeyText, server: string): seq<Piece>
  {
    Fill(FillCoordPieces(ps, t), "server", server)
  }

  /** Replacing {x}, {y} and {z} in a rendered template renders the filled pieces. */
  lemma CoordsFilled(ps: seq<Piece>, t: KeyText)
    requires WellFormed(ps) && PlainText(t)
    ensures WellFormed(FillCoordPieces(ps, t))
    ensures FillText(Render(ps), t) == Render(FillCoordPieces(ps, t))
  {
    PlaceholderTexts();
    ReplaceFills(ps, "x", t.x);
    var ps1 := Fill(ps, "x", t.x);
    ReplaceFills(ps1, "y", t.y);
    var ps2 := Fill(ps1, "y", t.y);
    ReplaceFills(ps2, "z", t.z);
  }

  lemma UrlTextUsing(template: string, t: KeyText, serverIndex: nat, u: string)
    requires serverIndex < |Servers| && FillText(template, t) == u && Contains(u, "{server}")
    ensures UsesServerText(template, t)
    ensures UrlText(template, t, serverIndex) == (ReplaceAll(u, "{server}", Servers[serverIndex]), (serverIndex + 1) % 3)
  {
  }

  /** Filling the index placeholders keeps the {server} placeholder. */
  lemma CoordsKeepServer(ps: seq<Piece>, t: KeyText)
    requires Hole("server") in ps
    ensures Hole("server") in FillCoordPieces(ps, t)
  {
    var i :| 0 <= i < |ps| && ps[i] == Hole("server");
    var ps1 := Fill(ps, "x", t.x);
    var ps2 := Fill(ps1, "y", t.y);
    assert ps1[i] == Hole("server");
    assert ps2[i] == Hole("server");
    assert Fill(ps2, "z", t.z)[i] == Hole("server");
  }

  /** Once the indices are in, a remaining {server} placeholder is filled with the current server. */
  lemma ServerFilled(template: string, t: KeyText, serverIndex: nat, ps: seq<Piece>)
    requires serverIndex < |Servers| && WellFormed(ps) && Hole("server") in ps
    requires FillText(template, t) == Render(ps)
    ensures UsesServerText(template, t)
    ensures UrlText(template, t, serverIndex) ==
              (Render(Fill(ps, "server", Servers[serverIndex])), (serverIndex + 1) % 3)
  {
    PlaceholderTexts();
    RenderContains(ps, "server");
    ServerNamesPlain(serverIndex);
    ReplaceFills(ps, "server", Servers[serverIndex]);
    UrlTextUsing(template, t, serverIndex, Render(ps));
  }

  /** The text-level form of ServerTemplateUrl. */
  lemma ServerTemplateText(ps: seq<Piece>, t: KeyText, serverIndex: nat)
    requires serverIndex < |Servers| && WellFormed(ps) && PlainText(t) && Hole("server") in ps
    ensures UsesServerText(Render(ps), t)
    ensures UrlText(Render(ps), t, serverIndex) ==
              (Render(FillAll(ps, t, Servers[serverIndex])), (serverIndex + 1) % 3)
  {
    CoordsFilled(ps, t);
    CoordsKeepServer(ps, t);
    ServerFilled(Render(ps), t, serverIndex, FillCoordPieces(ps, t));
  }

  /**
   * For a template with a {server} placeholder the URL is the template with {x}, {y},
   * {z} and {server} filled in, and the server index advances to the next server.
   */
  lemma ServerTemplateUrl(ps: seq<Piece>, k: TileKey, serverIndex: nat)
    requires serverIndex < |Servers| && WellFormed(ps) && Hole("server") in ps
    ensures UsesServer(Render(ps), k)
    ensures TileUrl(Render(ps), k, serverIndex) ==
              (Render(FillAll(ps, Print(k), Servers[serverIndex])), (serverIndex + 1) % 3)
  {
    PrintPlain(k);
    ServerTemplateText(ps, Print(k), serverIndex);
  }

  /**
   * With the default OpenStreetMap template a tile's URL names the server at the current
   * index, then zoom, x and y; the index moves to the next of the three servers.
   */
  lemma DefaultTemplateUrl(k: TileKey, serverIndex: nat)
    requires serverIndex < |Servers|
    ensures UsesServer(DefaultTemplate, k)
    ensures TileUrl(DefaultTemplate, k, serverIndex) ==
              (OsmUrl(Servers[serverIndex], Print(k)), (serverIndex + 1) % 3)
  {
    DefaultPiecesRender();
    DefaultPiecesWellFormed();
    assert DefaultPieces[1] == Hole("server");
    ServerTemplateUrl(DefaultPieces, k, serverIndex);
    DefaultPiecesFilled(Servers[serverIndex], Print(k));
    OsmPiecesRender(Servers[serverIndex], Print(k));
  }

  /** The text-level form of LiteralTemplateUrl. */
  lemma LiteralTemplateText(template: string, t: KeyText, serverIndex: nat)
    requires serverIndex < |Servers| && NoBrace(template)
    ensures !UsesServerText(template, t)
    ensures UrlText(template, t, serverIndex) == (template, serverIndex)
  {
    assert template + "" == template;
    ReplaceSkip(template, "", "{x}", t.x);
    ReplaceSkip(template, "", "{y}", t.y);
    ReplaceSkip(template, "", "{z}", t.z);
    NoBraceNotContains(template, "{server}");
  }

  /** A template without any placeholder is used verbatim and leaves the rotation alone. */
  lemma LiteralTemplateUrl(template: string, k: TileKey, serverIndex: nat)
    requires serverIndex < |Servers| && NoBrace(template)
    ensures !UsesServer(template, k)
    ensures TileUrl(template, k, serverIndex) == (template, serverIndex)
  {
    LiteralTemplateText(template, Print(k), serverIndex);
  }

  // ---------------------------------------------------------------------------
  // The queue entry handed to the worker.

  /** TileInfo of tilemapmanager.h. */
  datatype TileInfo = TileInfo(key: TileKey, url: string, filePath: string)

  /** Which of the URLs built for ks, in order, use the server rotation. */
  function ServerFlags(template: string, ks: seq<TileKey>): (r: seq<bool>)
    ensures |r| == |ks|
    decreases |ks|
  {
    if ks == [] then []
    else ServerFlags(template, ks[..|ks| - 1]) + [UsesServer(template, ks[|ks| - 1])]
  }

  /** The rotation after a run of URLs, each advancing it when its flag is set. */
  function Advance(flags: seq<bool>, serverIndex: nat): (r: nat)
    requires serverIndex < |Servers|
    ensures r < |Servers|
    decreases |flags|
  {
    if flags == [] then serverIndex
    else
      var i := Advance(flags[..|flags| - 1], serverIndex);
      if flags[|flags| - 1] then (i + 1) % |Servers| else i
  }

  /** The server index after building URLs for ks in order. */
  function IndexAfter(template: string, ks: seq<TileKey>, serverIndex: nat): (r: nat)
    requires serverIndex < |Servers|
    ensures r < |Servers|
  {
    Advance(ServerFlags(template, ks), serverIndex)
  }

  /** The URLs built for ks in order, each using the rotation left by the previous one. */
  function Urls(template: string, ks: seq<TileKey>, serverIndex: nat): (r: seq<string>)
    requires serverIndex < |Servers|
    ensures |r| == |ks|
    decreases |ks|
  {
    if ks == [] then []
    else
      var n := |ks| - 1;
      Urls(template, ks[..n], serverIndex) + [TileUrl(template, ks[n], IndexAfter(template, ks[..n], serverIndex)).0]
  }

  /** One queue entry per key, in the same order, with its URL and its cache path. */
  function Entries(root: string, ks: seq<TileKey>, urls: seq<string>): (r: seq<TileInfo>)
    requires |urls| == |ks|
  {
    seq(|ks|, i requires 0 <= i < |ks| => TileInfo(ks[i], urls[i], TilePath(root, ks[i])))
  }

  /** The queue entries built for ks in order. */
  function Infos(root: string, template: string, ks: seq<TileKey>, serverIndex: nat): (r: seq<TileInfo>)
    requires serverIndex < |Servers|
  {
    Entries(root, ks, Urls(template, ks, serverIndex))
  }

  /** Building one more URL: it uses the rotation the previous ones left, and advances it. */
  lemma UrlsSnoc(template: string, ks: seq<TileKey>, k: TileKey, serverIndex: nat)
    requires serverIndex < |Servers|
    ensures IndexAfter(template, ks + [k], serverIndex) ==
              TileUrl(template, k, IndexAfter(template, ks, serverIndex)).1
    ensures Urls(template, ks + [k], serverIndex) ==
              Urls(template, ks, serverIndex) + [TileUrl(template, k, IndexAfter(template, ks, serverIndex)).0]
  {
    assert (ks + [k])[..|ks|] == ks;
    var flags := ServerFlags(template, ks + [k]);
    assert flags[..|ks|] == ServerFlags(template, ks);
  }

  lemma EntriesSnoc(root: string, ks: seq<TileKey>, urls: seq<string>, k: TileKey, url: string)
    requires |urls| == |ks|
    ensures Entries(root, ks + [k], urls + [url]) == Entries(root, ks, urls) + [TileInfo(k, url, TilePath(root, k))]
  {
    var l := Entries(root, ks + [k], urls + [url]);
    var r := Entries(root, ks, urls) + [TileInfo(k, url, TilePath(root, k))];
    forall i | 0 <= i < |l|
      ensures l[i] == r[i]
    {
      if i < |ks| {
        assert (ks + [k])[i] == ks[i] && (urls + [url])[i] == urls[i];
      }
    }
  }

  /** Queueing one more tile appends its entry, built with the rotation the previous ones left. */
  lemma InfosSnoc(root: string, template: string, ks: seq<TileKey>, k: TileKey, serverIndex: nat)
    requires serverIndex < |Servers|
    ensures IndexAfter(template, ks + [k], serverIndex) ==
              TileUrl(template, k, IndexAfter(template, ks, serverIndex)).1
    ensures Infos(root, template, ks + [k], serverIndex) ==
              Infos(root, template, ks, serverIndex) +
              [TileInfo(k, TileUrl(template, k, IndexAfter(template, ks, serverIndex)).0, TilePath(root, k))]
  {
    UrlsSnoc(template, ks, k, serverIndex);
    var url := TileUrl(template, k, IndexAfter(template, ks, serverIndex)).0;
    EntriesSnoc(root, ks, Urls(template, ks, serverIndex), k, url);
  }

  /** The server index after `steps` URLs that each use the rotation. */
  function Rotated(start: nat, steps: nat): nat { (start + steps) % 3 }

  lemma RotatedStep(start: nat, steps: nat)
    ensures Rotated(start, steps + 1) == (Rotated(start, steps) + 1) % 3
  {
  }

  /** A run of n URLs that all use the rotation moves it n steps. */
  lemma {:induction false} AdvanceAllUsed(flags: seq<bool>, serverIndex: nat)
    requires serverIndex < |Servers|
    requires forall j :: 0 <= j < |flags| ==> flags[j]
    ensures Advance(flags, serverIndex) == Rotated(serverIndex, |flags|)
    decreases |flags|
  {
    if flags != [] {
      var n := |flags| - 1;
      AdvanceAllUsed(flags[..n], serverIndex);
      RotatedStep(serverIndex, n);
    }
  }

  lemma {:induction false} ServerFlagsAllUsed(template: string, ks: seq<TileKey>)
    requires forall k: TileKey :: UsesServer(template, k)
    ensures forall j :: 0 <= j < |ks| ==> ServerFlags(template, ks)[j]
    decreases |ks|
  {
    if ks != [] {
      var n := |ks| - 1;
      ServerFlagsAllUsed(template, ks[..n]);
      assert UsesServer(template, ks[n]);
    }
  }

  /** When every URL of a template uses the rotation, k URLs move it k steps. */
  lemma RotationAdvances(template: string, ks: seq<TileKey>, serverIndex: nat)
    requires serverIndex < |Servers|
    requires forall k: TileKey :: UsesServer(template, k)
    ensures IndexAfter(template, ks, serverIndex) == Rotated(serverIndex, |ks|)
  {
    ServerFlagsAllUsed(template, ks);
    AdvanceAllUsed(ServerFlags(template, ks), serverIndex);
  }

  /** With the default template k URLs move the rotation k steps. */
  lemma DefaultRotation(ks: seq<TileKey>, serverIndex: nat)
    requires serverIndex < |Servers|
    ensures IndexAfter(DefaultTemplate, ks, serverIndex) == Rotated(serverIndex, |ks|)
  {
    forall k: TileKey
      ensures UsesServer(DefaultTemplate, k)
    {
      DefaultTemplateUrl(k, 0);
    }
    RotationAdvances(DefaultTemplate, ks, serverIndex);
  }


  // ---------------------------------------------------------------------------
  // getMaxAvailableZoom.

  /** A subdirectory of a zoom directory, with the number of .png files in it. */
  datatype XDir = XDir(name: string, pngFiles: nat)

  /** A subdirectory of the cache directory and its own subdirectories. */
  datatype ZoomDir = ZoomDir(name: string, xDirs: seq<XDir>)

  /** A zoom directory holds tiles when one of its numeric subdirectories holds a .png file. */
  predicate HasTiles(d: ZoomDir)
  {
    exists i :: 0 <= i < |d.xDirs| && ParseInt(d.xDirs[i].name).Some? && d.xDirs[i].pngFiles > 0
  }

  /** A zoom directory counts when its name is a number and it holds tiles. */
  predicate Qualifies(d: ZoomDir)
  {
    ParseInt(d.name).Some? && HasTiles(d)
  }

  /**
   * The largest zoom level with a cached tile, or 0 when the cache directory is missing,
   * empty or holds no qualifying zoom level. `listing` is None when the directory does
   * not exist.
   */
  method MaxAvailableZoom(listing: Option<seq<ZoomDir>>) returns (maxZoom: int)
    ensures maxZoom >= 0
    ensures listing.Some? ==> forall i :: 0 <= i < |listing.value| && Qualifies(listing.value[i]) ==>
              ParseInt(listing.value[i].name).value <= maxZoom
    ensures maxZoom > 0 ==> listing.Some?
    ensures listing.Some? && maxZoom > 0 ==>
      exists i :: 0 <= i < |listing.value| && Qualifies(listing.value[i]) && ParseInt(listing.value[i].name).value == maxZoom
  {
    if listing.None? {
      return 0;
    }
    var zooms := listing.value;
    if |zooms| == 0 {
      return 0;
    }
    maxZoom := 0;
    for i := 0 to |zooms|
      invariant maxZoom >= 0
      invariant forall j :: 0 <= j < i && Qualifies(zooms[j]) ==> ParseInt(zooms[j].name).value <= maxZoom
      invariant maxZoom > 0 ==> exists j :: 0 <= j < i && Qualifies(zooms[j]) && ParseInt(zooms[j].name).value == maxZoom
    {
      var parsed := ParseInt(zooms[i].name);
      if parsed.Some? && parsed.value > maxZoom {
        var xDirs := zooms[i].xDirs;
        if |xDirs| > 0 {
          var hasTiles := false;
          var j := 0;
          while j < |xDirs|
            invariant 0 <= j <= |xDirs|
            invariant !hasTiles
            invariant forall m :: 0 <= m < j ==> !(ParseInt(xDirs[m].name).Some? && xDirs[m].pngFiles > 0)
          {
            if ParseInt(xDirs[j].name).Some? && xDirs[j].pngFiles > 0 {
              hasTiles := true;
              break;
            }
            j := j + 1;
          }
          assert hasTiles <==> HasTiles(zooms[i]);
          if hasTiles {
            maxZoom := parsed.value;
          }
        }
      }
    }
  }
}

/**
 * The hazard-map lookup for one address: the normalizer's verdict on the
 * address is checked for precision, the normalized coordinate is projected
 * onto slippy-map tile indices (the OpenStreetMap "Slippy map tilenames"
 * Web-Mercator scheme), and a fixed record of ten hazard raster-tile URLs and
 * one hazard-portal URL is formatted from them.
 *
 * The normalizer itself is not part of this model: its result is an input.
 * The latitude projection and the decimal text of a coordinate are
 * parameters, since they are floating-point library code.
 */
module AddressHazard {
  import opened Wrappers
  import opened Strings

  /** What the address normalizer reports for one address. */
  datatype NormalizeResult = NormalizeResult(
    pref: string,   // prefecture
    city: string,
    town: string,
    addr: string,   // the rest of the address (block, lot)
    level: int,     // precision: 0 not recognised, 1 prefecture, 2 city, 3 and up finer
    lat: real,      // latitude in degrees
    lng: real)      // longitude in degrees

  /** The hazard data the portal serves for one place: the record the lookup returns. */
  datatype Disaportaldata = Disaportaldata(
    address: string,            // the normalized address
    flood: string,              // expected flood inundation area
    takashio: string,           // expected storm-surge inundation area
    tsunami: string,            // expected tsunami inundation area
    dosekiryukeikai: string,    // sediment-disaster warning area (debris flow)
    kyukeishakeikai: string,    // sediment-disaster warning area (steep-slope collapse)
    jisuberikeikai: string,     // sediment-disaster warning area (landslide)
    dosekiryukiken: string,     // debris-flow danger stream
    kyukeisyachihoukai: string, // steep-slope collapse danger spot
    jisuberikiken: string,      // landslide danger spot
    nadarekiken: string,        // avalanche danger spot
    disaportal: string)         // deep link into the hazard-map portal

  /** The two ways the lookup refuses an address. */
  datatype HazardError = InvalidAddress | AmbiguousAddress {
    function Message(): string {
      match this
      case InvalidAddress => "住所が正しくありません"
      case AmbiguousAddress => "住所が曖昧です。町丁目まで入力してください"
    }
  }

  const DefaultZoomLevel: nat := 17

  const RasterBase := "https://disaportaldata.gsi.go.jp/raster/"

  /** Layer directory of each raster field, in the order of RasterFields. */
  const RasterLayers: seq<string> := [
    "01_flood_l2_shinsuishin_data",
    "03_hightide_l2_shinsuishin_data",
    "04_tsunami_newlegend_data",
    "05_dosekiryukeikaikuiki",
    "05_kyukeishakeikaikuiki",
    "05_jisuberikeikaikuiki",
    "05_dosekiryukikenkeiryu",
    "05_kyukeisyachihoukai",
    "05_jisuberikikenkasyo",
    "05_nadarekikenkasyo"
  ]

  const PortalBase := "https://disaportal.gsi.go.jp/maps/index.html?ll="

  /** The fixed display-layer query that ends every portal link. */
  const PortalSuffix := "&base=pale&ls=seamless%7Ctameike_raster%2C0.8%7Cflood_l2_kaokutoukai_kagan%2C0.8%7Cflood_l2_kaokutoukai_hanran%2C0.8%7Cflood_l2_keizoku%2C0.8%7Cflood_list%2C0.8%7Cflood_l1%2C0.8%7Cflood_list_l2%2C0.75%7Cdosha_kiken_nadare%2C0.8%7Cdosha_kiken_jisuberi%2C0.8%7Cdosha_kiken_kyukeisha%2C0.8%7Cdosha_kiken_dosekiryu%2C0.8%7Cdosha_keikai_jisuberi%2C0.8%7Cdosha_keikai_dosekiryu%2C0.8%7Cdosha_keikai_kyukeisha%2C0.8%7Cdisaster1%7Cdisaster2&disp=01000001111111100&vs=c1j0l0u0t0h0z0"

  /** The ten raster fields of a record, in the order of RasterLayers. */
  function RasterFields(d: Disaportaldata): seq<string>
  {
    [d.flood, d.takashio, d.tsunami, d.dosekiryukeikai, d.kyukeishakeikai,
     d.jisuberikeikai, d.dosekiryukiken, d.kyukeisyachihoukai, d.jisuberikiken,
     d.nadarekiken]
  }

  function Pow2(n: nat): (p: nat)
    ensures p >= 1
  {
    if n == 0 then 1 else 2 * Pow2(n - 1)
  }

  // ---------------------------------------------------------------------
  // Coordinate projection

  /**
   * Tile column of a longitude at a zoom level: the floor of the longitude's
   * fraction of the full turn, scaled by the 2^zoom columns of that level.
   * Exact real arithmetic stands in for the double arithmetic of the source.
   */
  function LongitudeToPixelPoint(lng: real, zoomLevel: nat): (x: int)
    ensures x as real <= (lng + 180.0) / 360.0 * Pow2(zoomLevel) as real < x as real + 1.0
  {
    ((lng + 180.0) / 360.0 * Pow2(zoomLevel) as real).Floor
  }

  /** A fraction of a whole turn, scaled to `n` columns, lands in one of them. */
  lemma {:induction false} FractionInColumns(f: real, n: int)
    requires 0.0 <= f < 1.0 && n >= 1
    ensures 0 <= (f * n as real).Floor < n
  {
    var p := n as real;
    assert p - f * p == (1.0 - f) * p;
    assert 0.0 <= f * p < p;
  }

  /** A longitude on the map, [-180, 180), falls in one of the 2^zoom columns. */
  lemma {:induction false} LongitudeInRange(lng: real, zoomLevel: nat)
    requires -180.0 <= lng < 180.0
    ensures 0 <= LongitudeToPixelPoint(lng, zoomLevel) < Pow2(zoomLevel)
  {
    FractionInColumns((lng + 180.0) / 360.0, Pow2(zoomLevel));
  }

  /** Moving east never moves to a column further west. */
  lemma {:induction false} LongitudeMonotone(lng1: real, lng2: real, zoomLevel: nat)
    requires lng1 <= lng2
    ensures LongitudeToPixelPoint(lng1, zoomLevel) <= LongitudeToPixelPoint(lng2, zoomLevel)
  {
    var p := Pow2(zoomLevel) as real;
    var f1, f2 := (lng1 + 180.0) / 360.0, (lng2 + 180.0) / 360.0;
    assert f1 <= f2;
    assert f1 * p <= f2 * p by {
      assert (f2 - f1) * p >= 0.0;
    }
  }

  /** One more zoom level splits every column in two. */
  lemma {:induction false} LongitudeZoomIn(lng: real, zoomLevel: nat)
    ensures LongitudeToPixelPoint(lng, zoomLevel + 1) / 2 == LongitudeToPixelPoint(lng, zoomLevel)
  {
    var v := (lng + 180.0) / 360.0 * Pow2(zoomLevel) as real;
    var x := LongitudeToPixelPoint(lng, zoomLevel);
    var x2 := LongitudeToPixelPoint(lng, zoomLevel + 1);
    assert (lng + 180.0) / 360.0 * Pow2(zoomLevel + 1) as real == 2.0 * v;
    assert x as real <= v < x as real + 1.0;
    assert x2 as real <= 2.0 * v < x2 as real + 1.0;
    assert 2 * x <= x2 <= 2 * x + 1;
  }

  // ---------------------------------------------------------------------
  // URL formats and their decoders

  /** What a raster-tile URL addresses. */
  datatype RasterTile = RasterTile(layer: string, zoomLevel: nat, x: int, y: int)

  /** The raster-tile URL of one layer at one tile. */
  function RasterUrl(layer: string, zoomLevel: nat, x: int, y: int): string
  {
    RasterBase
      + (layer + "/" + NatToString(zoomLevel) + "/" + IntToString(x) + "/" + IntToString(y))
      + ".png"
  }

  /** Reads the layer, zoom level and tile indices back out of a raster-tile URL. */
  function ParseRasterUrl(url: string): Option<RasterTile>
  {
    if |url| < |RasterBase| + 4 || url[..|RasterBase|] != RasterBase
      || url[|url| - 4..] != ".png" then None
    else
      var parts := Split(url[|RasterBase|..|url| - 4], '/');
      if |parts| != 4 then None
      else
        match (ParseNat(parts[1]), ParseInt(parts[2]), ParseInt(parts[3]))
        case (Some(z), Some(x), Some(y)) => Some(RasterTile(parts[0], z, x, y))
        case _ => None
  }

  /** A raster-tile URL is its base, the four path segments joined by "/", and ".png". */
  lemma {:induction false} RasterUrlSegments(layer: string, zoomLevel: nat, x: int, y: int)
    ensures RasterUrl(layer, zoomLevel, x, y)
            == RasterBase + Join([layer, NatToString(zoomLevel), IntToString(x), IntToString(y)], '/') + ".png"
  {
    JoinFour(layer, NatToString(zoomLevel), IntToString(x), IntToString(y), '/');
  }

  /** A raster-tile URL names exactly its layer and tile. */
  lemma {:induction false} ParseRasterUrlRoundTrip(layer: string, zoomLevel: nat, x: int, y: int)
    requires '/' !in layer
    ensures ParseRasterUrl(RasterUrl(layer, zoomLevel, x, y))
            == Some(RasterTile(layer, zoomLevel, x, y))
  {
    var zs, xs, ys := NatToString(zoomLevel), IntToString(x), IntToString(y);
    var url := RasterUrl(layer, zoomLevel, x, y);
    var middle := Join([layer, zs, xs, ys], '/');
    RasterUrlSegments(layer, zoomLevel, x, y);
    assert url[..|RasterBase|] == RasterBase;
    assert url[|url| - 4..] == ".png";
    assert url[|RasterBase|..|url| - 4] == middle;
    SplitJoin([layer, zs, xs, ys], '/');
    ParseNatToString(zoomLevel);
    ParseIntToString(x);
    ParseIntToString(y);
  }

  /** URL text the decoder accepts is the URL of the tile it reads. */
  lemma {:induction false} ParseRasterUrlAccepted(url: string)
    requires ParseRasterUrl(url).Some?
    ensures var tile := ParseRasterUrl(url).value;
      '/' !in tile.layer && url == RasterUrl(tile.layer, tile.zoomLevel, tile.x, tile.y)
  {
    var tile := ParseRasterUrl(url).value;
    var middle := url[|RasterBase|..|url| - 4];
    var parts := Split(middle, '/');
    assert url == RasterBase + middle + ".png" by {
      assert url == url[..|RasterBase|] + middle + url[|url| - 4..];
    }
    NatToStringParseNat(parts[1]);
    IntToStringParseInt(parts[2]);
    IntToStringParseInt(parts[3]);
    assert parts == [tile.layer, NatToString(tile.zoomLevel), IntToString(tile.x), IntToString(tile.y)];
    JoinSplit(middle, '/');
    RasterUrlSegments(tile.layer, tile.zoomLevel, tile.x, tile.y);
  }

  /** The decoder accepts exactly the raster-tile URLs: a URL names a tile if and only if it is that tile's URL. */
  lemma {:induction false} ParseRasterUrlExact(url: string, tile: RasterTile)
    ensures ParseRasterUrl(url) == Some(tile)
            <==> '/' !in tile.layer && url == RasterUrl(tile.layer, tile.zoomLevel, tile.x, tile.y)
  {
    if ParseRasterUrl(url) == Some(tile) {
      ParseRasterUrlAccepted(url);
    }
    if '/' !in tile.layer && url == RasterUrl(tile.layer, tile.zoomLevel, tile.x, tile.y) {
      ParseRasterUrlRoundTrip(tile.layer, tile.zoomLevel, tile.x, tile.y);
    }
  }

  /** What a portal link shows: the coordinate, as text, and the zoom level. */
  datatype PortalView = PortalView(latText: string, lngText: string, zoomLevel: nat)

  /** The portal link centred on a coordinate at a zoom level. */
  function PortalUrl(latText: string, lngText: string, zoomLevel: nat): string
  {
    PortalBase + PortalQuery(latText, lngText, zoomLevel) + PortalSuffix
  }

  /** The coordinate and zoom-level parameters of a portal link. */
  function PortalQuery(latText: string, lngText: string, zoomLevel: nat): string
  {
    latText + "," + lngText + "&z=" + NatToString(zoomLevel)
  }

  /** Reads the `ll` and `z` parameters back out of the query of a portal link. */
  function ParsePortalQuery(query: string): Option<PortalView>
  {
    var params := Split(query, '&');
    if |params| != 2 || |params[1]| < 2 || params[1][..2] != "z=" then None
    else
      var ll := Split(params[0], ',');
      if |ll| != 2 then None
      else
        match ParseNat(params[1][2..])
        case Some(z) => Some(PortalView(ll[0], ll[1], z))
        case None => None
  }

  /** Reads the coordinate and zoom level back out of a portal link. */
  function ParsePortalUrl(url: string): Option<PortalView>
  {
    match Between(url, PortalBase, PortalSuffix)
    case None => None
    case Some(query) => ParsePortalQuery(query)
  }

  /** Coordinate text as the portal link needs it: no parameter or pair separator. */
  predicate PlainCoordinateText(s: string)
  {
    ',' !in s && '&' !in s
  }

  lemma {:induction false} ParsePortalQueryRoundTrip(latText: string, lngText: string, zoomLevel: nat)
    requires PlainCoordinateText(latText) && PlainCoordinateText(lngText)
    ensures ParsePortalQuery(PortalQuery(latText, lngText, zoomLevel)) == Some(PortalView(latText, lngText, zoomLevel))
  {
    var zs := NatToString(zoomLevel);
    var ll := latText + "," + lngText;
    var z := "z=" + zs;
    assert latText + "," + lngText + "&z=" + zs == ll + "&" + z;
    assert '&' !in z by {
      assert forall i :: 0 <= i < |zs| ==> IsDigit(zs[i]);
      assert forall i :: 0 <= i < |z| ==> z[i] != '&';
    }
    assert '&' !in ll by {
      assert forall i :: 0 <= i < |ll| ==> ll[i] != '&';
    }
    JoinTwo(ll, z, '&');
    SplitJoin([ll, z], '&');
    assert z[..2] == "z=" && z[2..] == zs;
    JoinTwo(latText, lngText, ',');
    SplitJoin([latText, lngText], ',');
    ParseNatToString(zoomLevel);
  }

  /** A portal link carries exactly the coordinate text and zoom level it was made from. */
  lemma {:induction false} ParsePortalUrlRoundTrip(latText: string, lngText: string, zoomLevel: nat)
    requires PlainCoordinateText(latText) && PlainCoordinateText(lngText)
    ensures ParsePortalUrl(PortalUrl(latText, lngText, zoomLevel))
            == Some(PortalView(latText, lngText, zoomLevel))
  {
    var query := PortalQuery(latText, lngText, zoomLevel);
    BetweenConcat(PortalBase, query, PortalSuffix);
    ParsePortalQueryRoundTrip(latText, lngText, zoomLevel);
  }

  /** Query text the decoder accepts is the query of the view it reads. */
  lemma {:induction false} ParsePortalQueryExact(query: string)
    requires ParsePortalQuery(query).Some?
    ensures var v := ParsePortalQuery(query).value;
      PlainCoordinateText(v.latText) && PlainCoordinateText(v.lngText)
      && query == PortalQuery(v.latText, v.lngText, v.zoomLevel)
  {
    var v := ParsePortalQuery(query).value;
    var params := Split(query, '&');
    JoinSplit(query, '&');
    assert params == [params[0], params[1]];
    JoinTwo(params[0], params[1], '&');
    var zs := params[1][2..];
    NatToStringParseNat(zs);
    assert params[1] == "z=" + zs;
    var ll := Split(params[0], ',');
    JoinSplit(params[0], ',');
    assert ll == [ll[0], ll[1]];
    JoinTwo(ll[0], ll[1], ',');
    assert params[0] == ll[0] + [','] + ll[1];
    assert '&' !in ll[0] by {
      assert forall i :: 0 <= i < |ll[0]| ==> ll[0][i] == params[0][i];
    }
    assert '&' !in ll[1] by {
      assert forall i :: 0 <= i < |ll[1]| ==> ll[1][i] == params[0][|ll[0]| + 1 + i];
    }
    assert query == ll[0] + "," + ll[1] + "&z=" + zs;
  }

  /** The decoder accepts exactly the portal links: a link shows a view if and only if it is that view's link. */
  lemma {:induction false} ParsePortalUrlExact(url: string, view: PortalView)
    ensures ParsePortalUrl(url) == Some(view)
            <==> PlainCoordinateText(view.latText) && PlainCoordinateText(view.lngText)
                 && url == PortalUrl(view.latText, view.lngText, view.zoomLevel)
  {
    if ParsePortalUrl(url) == Some(view) {
      BetweenSplits(url, PortalBase, PortalSuffix);
      ParsePortalQueryExact(Between(url, PortalBase, PortalSuffix).value);
    }
    if PlainCoordinateText(view.latText) && PlainCoordinateText(view.lngText)
       && url == PortalUrl(view.latText, view.lngText, view.zoomLevel) {
      ParsePortalUrlRoundTrip(view.latText, view.lngText, view.zoomLevel);
    }
  }

  // ---------------------------------------------------------------------
  // The lookup

  /**
   * The record for an address shown at one tile: every raster field is the
   * URL of its own layer at that tile, and the portal link is centred on the
   * coordinate at that zoom level.
   */
  function HazardRecord(address: string, zoomLevel: nat, x: int, y: int,
                        latText: string, lngText: string): (d: Disaportaldata)
    ensures d.address == address
    ensures forall i :: 0 <= i < |RasterLayers| ==>
      RasterFields(d)[i] == RasterUrl(RasterLayers[i], zoomLevel, x, y)
    ensures d.disaportal == PortalUrl(latText, lngText, zoomLevel)
  {
    Disaportaldata(
      address,
      RasterUrl(RasterLayers[0], zoomLevel, x, y),
      RasterUrl(RasterLayers[1], zoomLevel, x, y),
      RasterUrl(RasterLayers[2], zoomLevel, x, y),
      RasterUrl(RasterLayers[3], zoomLevel, x, y),
      RasterUrl(RasterLayers[4], zoomLevel, x, y),
      RasterUrl(RasterLayers[5], zoomLevel, x, y),
      RasterUrl(RasterLayers[6], zoomLevel, x, y),
      RasterUrl(RasterLayers[7], zoomLevel, x, y),
      RasterUrl(RasterLayers[8], zoomLevel, x, y),
      RasterUrl(RasterLayers[9], zoomLevel, x, y),
      PortalUrl(latText, lngText, zoomLevel))
  }

  /**
   * The hazard data for a normalized address. `zoomLevel` None stands for the
   * parameter left out by the caller. `latitudeToPixelPoint` is the Mercator
   * row projection and `numberToString` the decimal text of a coordinate.
   */
  function GetDisaportaldata(
    normalized: NormalizeResult,
    zoomLevel: Option<nat>,
    latitudeToPixelPoint: (real, nat) -> int,
    numberToString: real -> string): (r: Result<Disaportaldata, HazardError>)
    ensures normalized.level == 0 <==> r == Err(InvalidAddress)
    ensures (normalized.level == 1 || normalized.level == 2) <==> r == Err(AmbiguousAddress)
    ensures r.Ok? ==> r.value.address
                        == normalized.pref + normalized.city + normalized.town + normalized.addr
    ensures r.Ok? ==>
      var z := zoomLevel.GetOr(DefaultZoomLevel);
      var x := LongitudeToPixelPoint(normalized.lng, z);
      var y := latitudeToPixelPoint(normalized.lat, z);
      forall i :: 0 <= i < |RasterLayers| ==>
        RasterFields(r.value)[i] == RasterUrl(RasterLayers[i], z, x, y)
        && ParseRasterUrl(RasterFields(r.value)[i]) == Some(RasterTile(RasterLayers[i], z, x, y))
    ensures r.Ok? ==>
      r.value.disaportal == PortalUrl(numberToString(normalized.lat), numberToString(normalized.lng),
                                      zoomLevel.GetOr(DefaultZoomLevel))
    ensures r.Ok? && PlainCoordinateText(numberToString(normalized.lat))
                  && PlainCoordinateText(numberToString(normalized.lng)) ==>
      ParsePortalUrl(r.value.disaportal)
        == Some(PortalView(numberToString(normalized.lat), numberToString(normalized.lng),
                           zoomLevel.GetOr(DefaultZoomLevel)))
  {
    if normalized.level == 0 then Err(InvalidAddress)
    else if normalized.level == 1 || normalized.level == 2 then Err(AmbiguousAddress)
    else
      var z := zoomLevel.GetOr(DefaultZoomLevel);
      var lng := normalized.lng;
      var lat := normalized.lat;
      var x := LongitudeToPixelPoint(lng, z);
      var y := latitudeToPixelPoint(lat, z);
      var address := normalized.pref + normalized.city + normalized.town + normalized.addr;
      HazardRecordReadsBack(address, z, x, y, numberToString(lat), numberToString(lng));
      Ok(HazardRecord(address, z, x, y, numberToString(lat), numberToString(lng)))
  }

  lemma {:induction false} LayersWithoutSlash()
    ensures forall i :: 0 <= i < |RasterLayers| ==> '/' !in RasterLayers[i]
  {
    FirstLayersWithoutSlash();
    LastLayersWithoutSlash();
  }

  lemma {:induction false} FirstLayersWithoutSlash()
    ensures forall i :: 0 <= i < 5 ==> '/' !in RasterLayers[i]
  {
  }

  lemma {:induction false} LastLayersWithoutSlash()
    ensures forall i :: 5 <= i < |RasterLayers| ==> '/' !in RasterLayers[i]
  {
  }

  /** Every raster field reads back as its own layer at the record's tile, and the portal link as its coordinate. */
  lemma {:induction false} HazardRecordReadsBack(address: string, zoomLevel: nat, x: int, y: int,
                                                 latText: string, lngText: string)
    ensures var d := HazardRecord(address, zoomLevel, x, y, latText, lngText);
      forall i :: 0 <= i < |RasterLayers| ==>
        ParseRasterUrl(RasterFields(d)[i]) == Some(RasterTile(RasterLayers[i], zoomLevel, x, y))
    ensures PlainCoordinateText(latText) && PlainCoordinateText(lngText) ==>
      ParsePortalUrl(HazardRecord(address, zoomLevel, x, y, latText, lngText).disaportal)
        == Some(PortalView(latText, lngText, zoomLevel))
  {
    var d := HazardRecord(address, zoomLevel, x, y, latText, lngText);
    LayersWithoutSlash();
    forall i | 0 <= i < |RasterLayers|
      ensures ParseRasterUrl(RasterFields(d)[i]) == Some(RasterTile(RasterLayers[i], zoomLevel, x, y))
    {
      ParseRasterUrlRoundTrip(RasterLayers[i], zoomLevel, x, y);
    }
    if PlainCoordinateText(latText) && PlainCoordinateText(lngText) {
      ParsePortalUrlRoundTrip(latText, lngText, zoomLevel);
    }
  }

  /** 2^17 columns at the default zoom level; longitude 139.753 lies in column 116418 of them. */
  lemma {:induction false} CentralTokyoColumn()
    ensures LongitudeToPixelPoint(139.753, 17) == 116418
  {
    assert Pow2(4) == 16 by {
      assert Pow2(1) == 2 && Pow2(2) == 4 && Pow2(3) == 8;
    }
    assert Pow2(8) == 256 by {
      assert Pow2(5) == 32 && Pow2(6) == 64 && Pow2(7) == 128;
    }
    assert Pow2(12) == 4096 by {
      assert Pow2(9) == 512 && Pow2(10) == 1024 && Pow2(11) == 2048;
    }
    assert Pow2(17) == 131072 by {
      assert Pow2(13) == 8192 && Pow2(14) == 16384 && Pow2(15) == 32768 && Pow2(16) == 65536;
    }
  }

  /**
   * The worked example of a central Tokyo address at the default zoom level:
   * longitude 139.753 lies in tile column 116418 of the 2^17 columns, and the
   * flood layer's URL names that column and zoom level 17.
   */
  lemma {:induction false} CentralTokyoFloodTile(normalized: NormalizeResult, latitudeToPixelPoint: (real, nat) -> int,
                              numberToString: real -> string)
    requires normalized.level == 3 && normalized.lng == 139.753
    ensures var r := GetDisaportaldata(normalized, None, latitudeToPixelPoint, numberToString);
      r.Ok? && ParseRasterUrl(r.value.flood)
        == Some(RasterTile("01_flood_l2_shinsuishin_data", 17, 116418,
                           latitudeToPixelPoint(normalized.lat, 17)))
  {
    CentralTokyoColumn();
    var r := GetDisaportaldata(normalized, None, latitudeToPixelPoint, numberToString);
    assert RasterFields(r.value)[0] == r.value.flood;
  }
}

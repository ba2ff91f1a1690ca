/**
 * The hex colour blob of a saved colormap: two lower-case hex digits per
 * channel, six per colour, written by `save_colormap` and read back by the
 * `.jscm` loader.
 */
module HexCodec {
  import opened Wrappers
  import opened ColorMap

  type Byte = b: int | 0 <= b < 256

  /** Python 3's `round` on a number: the nearest integer, ties to the even one. */
  function RoundHalfEven(x: real): (r: int)
    ensures x - 0.5 <= r as real <= x + 0.5
    ensures (r as real - x == 0.5 || x - r as real == 0.5) ==> r % 2 == 0
  {
    var f := x.Floor;
    var d := x - f as real;
    if d < 0.5 then f
    else if d > 0.5 then f + 1
    else if f % 2 == 0 then f else f + 1
  }

  /** `int(round(component * 255))` for a displayable channel. */
  function ToByte(c: real): Byte
    requires 0.0 <= c <= 1.0
  {
    RoundHalfEven(c * 255.0)
  }

  function HexDigit(d: int): char
    requires 0 <= d < 16
  {
    "0123456789abcdef"[d]
  }

  /** `"%02x" % b`. */
  function Hex2(b: Byte): (s: string)
    ensures |s| == 2
  {
    [HexDigit(b / 16), HexDigit(b % 16)]
  }

  /** The value of a hex digit, either case, as `int(..., 16)` reads it. */
  function DigitValue(ch: char): Option<int> {
    if '0' <= ch <= '9' then Some(ch as int - '0' as int)
    else if 'a' <= ch <= 'f' then Some(ch as int - 'a' as int + 10)
    else if 'A' <= ch <= 'F' then Some(ch as int - 'A' as int + 10)
    else None
  }

  /** `int(s, 16)` for a non-empty run of hex digits; None where Python raises. */
  function ParseHex(s: string): (r: Option<int>)
    ensures r.Some? ==> 0 <= r.value
  {
    if |s| == 0 then None
    else
      var d := DigitValue(s[|s| - 1]);
      if d.None? then None
      else if |s| == 1 then d
      else
        var hi := ParseHex(s[..|s| - 1]);
        if hi.None? then None else Some(hi.value * 16 + d.value)
  }

  /** Reading two written digits gives the byte back. */
  lemma ParseHex2(b: Byte)
    ensures ParseHex(Hex2(b)) == Some(b)
  {
    var hi, lo := b / 16, b % 16;
    DigitRoundTrip(hi);
    DigitRoundTrip(lo);
    var s := Hex2(b);
    assert s[..1] == [HexDigit(hi)];
    assert ParseHex(s[..1]) == Some(hi);
    assert ParseHex(s) == Some(hi * 16 + lo);
  }

  /** A written digit reads back as its value. */
  lemma DigitRoundTrip(d: int)
    requires 0 <= d < 16
    ensures DigitValue(HexDigit(d)) == Some(d)
  {
    if d < 10 {
      assert HexDigit(d) as int == '0' as int + d;
    } else {
      assert HexDigit(d) as int == 'a' as int + d - 10;
    }
  }

  /** The channels of a colour in the order they are written. */
  function Channel(c: Color, j: nat): real
    requires j < 3
  {
    if j == 0 then c.r else if j == 1 then c.g else c.b
  }

  predicate Displayable(c: Color) {
    !OutOfGamut(c)
  }

  /** The hex of the first j channels of a colour. */
  function ChannelsHex(c: Color, j: nat): (s: string)
    requires j <= 3 && Displayable(c)
    ensures |s| == 2 * j
  {
    if j == 0 then "" else ChannelsHex(c, j - 1) + Hex2(ToByte(Channel(c, j - 1)))
  }

  function RowHex(c: Color): (s: string)
    requires Displayable(c)
    ensures |s| == 6
  {
    ChannelsHex(c, 3)
  }

  /** Every row is a colour, and displayable. */
  ghost predicate AllShown(rows: seq<Pixel>) {
    forall i :: 0 <= i < |rows| ==> rows[i].Shown? && Displayable(rows[i].color)
  }

  /** The blob of an all-finite table: six digits per colour, in order. */
  function HexBlob(rows: seq<Pixel>): (s: string)
    requires AllShown(rows)
    ensures |s| == 6 * |rows|
  {
    if rows == [] then "" else HexBlob(rows[..|rows| - 1]) + RowHex(rows[|rows| - 1].color)
  }

  /**
   * The `colors` entry `save_colormap` writes for a table from `get_sRGB`
   * (whose colour rows are all displayable): "N/A" as soon as one row is
   * NaN, the hex blob otherwise.
   */
  function EncodeColors(rows: seq<Pixel>): (s: string)
    requires forall i :: 0 <= i < |rows| && rows[i].Shown? ==> Displayable(rows[i].color)
    ensures s == "N/A" <==> exists i :: 0 <= i < |rows| && rows[i].NotANumber?
    ensures s != "N/A" ==> |s| == 6 * |rows|
  {
    if exists i :: 0 <= i < |rows| && rows[i].NotANumber? then "N/A"
    else
      var b := HexBlob(rows);
      assert |b| % 6 == 0;
      b
  }

  /** The `save_colormap` loops: check every value is finite, then append two digits per channel. */
  method WriteColors(rows: seq<Pixel>) returns (blob: string)
    requires forall i :: 0 <= i < |rows| && rows[i].Shown? ==> Displayable(rows[i].color)
    ensures blob == EncodeColors(rows)
  {
    var finite := true;
    var i := 0;
    while i < |rows|
      invariant 0 <= i <= |rows|
      invariant finite <==> forall k :: 0 <= k < i ==> rows[k].Shown?
    {
      if rows[i].NotANumber? {
        finite := false;
      }
      i := i + 1;
    }
    if !finite {
      return "N/A";
    }
    assert AllShown(rows);
    blob := "";
    i := 0;
    while i < |rows|
      invariant 0 <= i <= |rows|
      invariant blob == HexBlob(rows[..i])
    {
      var color := rows[i].color;
      var j := 0;
      while j < 3
        invariant 0 <= j <= 3
        invariant blob == HexBlob(rows[..i]) + ChannelsHex(color, j)
      {
        blob := blob + Hex2(ToByte(Channel(color, j)));
        j := j + 1;
      }
      HexBlobSnoc(rows, i);
      i := i + 1;
    }
    assert rows[..i] == rows;
  }

  /** The blob of one more row is the blob so far followed by that row's six digits. */
  lemma HexBlobSnoc(rows: seq<Pixel>, i: nat)
    requires AllShown(rows) && i < |rows|
    ensures HexBlob(rows[..i + 1]) == HexBlob(rows[..i]) + RowHex(rows[i].color)
  {
    assert rows[..i + 1][..i] == rows[..i];
  }

  /** `[colors[i:i+6] for i in range(0, len(colors), 6)]`. */
  function Chunks(s: string): (r: seq<string>)
    ensures forall k :: 0 <= k < |r| ==> 0 < |r[k]| <= 6
    decreases |s|
  {
    if |s| == 0 then [] else if |s| <= 6 then [s] else [s[..6]] + Chunks(s[6..])
  }

  /** Chunking splits at every multiple of six. */
  lemma {:induction false} ChunksAppend(a: string, b: string)
    requires |a| % 6 == 0
    ensures Chunks(a + b) == Chunks(a) + Chunks(b)
    decreases |a|
  {
    if |a| > 0 {
      if |a + b| <= 6 {
        assert b == [] && a + b == a;
      } else {
        assert (a + b)[..6] == a[..6];
        assert (a + b)[6..] == a[6..] + b;
        ChunksAppend(a[6..], b);
        if |a| == 6 {
          assert a[..6] == a && a[6..] == [];
        }
      }
    } else {
      assert a + b == b;
    }
  }

  /** `c[2*i:2*i+2]`, clipped to the chunk as Python slices are. */
  function Piece(c: string, i: nat): string {
    var lo := if 2 * i <= |c| then 2 * i else |c|;
    var hi := if 2 * i + 2 <= |c| then 2 * i + 2 else |c|;
    c[lo..hi]
  }

  /** One chunk as three channels `int(piece, 16) / 255`; None where `int` raises. */
  function DecodeChunk(c: string): Option<Color> {
    var r, g, b := ParseHex(Piece(c, 0)), ParseHex(Piece(c, 1)), ParseHex(Piece(c, 2));
    if r.None? || g.None? || b.None? then None
    else Some(Color(r.value as real / 255.0, g.value as real / 255.0, b.value as real / 255.0))
  }

  /** Every chunk decoded in order; None as soon as one chunk does not parse. */
  function DecodeChunks(chunks: seq<string>): (r: Option<seq<Color>>)
    ensures r.Some? <==> forall k :: 0 <= k < |chunks| ==> DecodeChunk(chunks[k]).Some?
    ensures r.Some? ==>
      && |r.value| == |chunks|
      && (forall k :: 0 <= k < |chunks| ==> DecodeChunk(chunks[k]) == Some(r.value[k]))
  {
    if chunks == [] then Some([])
    else
      var first := DecodeChunk(chunks[0]);
      var rest := DecodeChunks(chunks[1..]);
      assert forall k :: 0 < k < |chunks| ==> chunks[k] == chunks[1..][k - 1];
      if first.None? || rest.None? then None else Some([first.value] + rest.value)
  }

  datatype DecodeError = NotAvailable | BadDigits

  /** The `.jscm` loader's reading of `colors` when there is no editor section. */
  function DecodeColors(colors: string): (r: Result<seq<Color>, DecodeError>)
    ensures colors == "N/A" ==> r == Err(NotAvailable)
    ensures colors != "N/A" && r.Err? ==>
      && r == Err(BadDigits)
      && exists k :: 0 <= k < |Chunks(colors)| && DecodeChunk(Chunks(colors)[k]).None?
    ensures r.Ok? ==>
      && |r.value| == |Chunks(colors)|
      && (forall k :: 0 <= k < |r.value| ==> DecodeChunk(Chunks(colors)[k]) == Some(r.value[k]))
  {
    if colors == "N/A" then Err(NotAvailable)
    else
      var chunks := Chunks(colors);
      var cs := DecodeChunks(chunks);
      if cs.None? then
        Err(BadDigits)
      else Ok(cs.value)
  }

  /** What a colour is once written and read back: each channel rounded to a multiple of 1/255. */
  function Quantized(c: Color): Color
    requires Displayable(c)
  {
    Color(ToByte(c.r) as real / 255.0, ToByte(c.g) as real / 255.0, ToByte(c.b) as real / 255.0)
  }

  /** The six digits of each row. */
  function RowHexes(rows: seq<Pixel>): (r: seq<string>)
    requires AllShown(rows)
    ensures |r| == |rows| && forall k :: 0 <= k < |rows| ==> r[k] == RowHex(rows[k].color)
  {
    seq(|rows|, k requires 0 <= k < |rows| => RowHex(rows[k].color))
  }

  /** Each row as it reads back. */
  function QuantizedAll(rows: seq<Pixel>): (r: seq<Color>)
    requires AllShown(rows)
    ensures |r| == |rows| && forall k :: 0 <= k < |rows| ==> r[k] == Quantized(rows[k].color)
  {
    seq(|rows|, k requires 0 <= k < |rows| => Quantized(rows[k].color))
  }

  lemma DecodeRow(c: Color)
    requires Displayable(c)
    ensures DecodeChunk(RowHex(c)) == Some(Quantized(c))
  {
    var b0, b1, b2 := ToByte(c.r), ToByte(c.g), ToByte(c.b);
    RowHexBytes(c);
    DecodeBytes(b0, b1, b2);
    assert Quantized(c) == Color(b0 as real / 255.0, b1 as real / 255.0, b2 as real / 255.0);
  }

  /** A row is written as the hex of its three channel bytes. */
  lemma RowHexBytes(c: Color)
    requires Displayable(c)
    ensures RowHex(c) == Hex2(ToByte(c.r)) + Hex2(ToByte(c.g)) + Hex2(ToByte(c.b))
  {
    assert ChannelsHex(c, 1) == Hex2(ToByte(c.r));
    assert ChannelsHex(c, 2) == Hex2(ToByte(c.r)) + Hex2(ToByte(c.g));
  }

  /** Six written digits read back as the three bytes over 255. */
  lemma DecodeBytes(b0: Byte, b1: Byte, b2: Byte)
    ensures DecodeChunk(Hex2(b0) + Hex2(b1) + Hex2(b2))
      == Some(Color(b0 as real / 255.0, b1 as real / 255.0, b2 as real / 255.0))
  {
    ParseHex2(b0);
    ParseHex2(b1);
    ParseHex2(b2);
    DecodePieces(Hex2(b0), Hex2(b1), Hex2(b2), b0, b1, b2);
  }

  /** A chunk made of three two-digit pieces reads as their three values over 255. */
  lemma DecodePieces(h0: string, h1: string, h2: string, v0: int, v1: int, v2: int)
    requires |h0| == 2 && |h1| == 2 && |h2| == 2
    requires ParseHex(h0) == Some(v0) && ParseHex(h1) == Some(v1) && ParseHex(h2) == Some(v2)
    ensures DecodeChunk(h0 + h1 + h2) == Some(Color(v0 as real / 255.0, v1 as real / 255.0, v2 as real / 255.0))
  {
    PiecesOfRow(h0, h1, h2);
  }

  /** The three two-character pieces of a six-character chunk. */
  lemma PiecesOfRow(a: string, b: string, c: string)
    requires |a| == 2 && |b| == 2 && |c| == 2
    ensures Piece(a + b + c, 0) == a && Piece(a + b + c, 1) == b && Piece(a + b + c, 2) == c
  {
    var s := a + b + c;
    assert s[0..2] == a;
    assert s[2..4] == b;
    assert s[4..6] == c;
  }

  lemma {:induction false} ChunksOfBlob(rows: seq<Pixel>)
    requires AllShown(rows)
    ensures Chunks(HexBlob(rows)) == RowHexes(rows)
  {
    if rows != [] {
      var init, last := rows[..|rows| - 1], RowHex(rows[|rows| - 1].color);
      ChunksOfBlob(init);
      ChunksAppend(HexBlob(init), last);
      assert HexBlob(rows) == HexBlob(init) + last;
      assert Chunks(last) == [last];
      RowHexesSnoc(rows);
    }
  }

  lemma RowHexesSnoc(rows: seq<Pixel>)
    requires AllShown(rows) && rows != []
    ensures RowHexes(rows) == RowHexes(rows[..|rows| - 1]) + [RowHex(rows[|rows| - 1].color)]
  {
    var a, b := RowHexes(rows), RowHexes(rows[..|rows| - 1]) + [RowHex(rows[|rows| - 1].color)];
    assert |a| == |b|;
    forall k | 0 <= k < |a| ensures a[k] == b[k] {
      if k < |rows| - 1 {
        assert rows[..|rows| - 1][k] == rows[k];
      }
    }
  }

  lemma {:induction false} DecodeRows(rows: seq<Pixel>)
    requires AllShown(rows)
    ensures DecodeChunks(RowHexes(rows))
      == Some(QuantizedAll(rows))
  {
    if rows != [] {
      var hs, qs := RowHexes(rows), QuantizedAll(rows);
      DecodeRow(rows[0].color);
      DecodeRows(rows[1..]);
      RowsTail(rows);
      DecodeChunksCons(hs, qs[0], qs[1..]);
      assert qs == [qs[0]] + qs[1..];
    } else {
      assert |RowHexes(rows)| == 0 && |QuantizedAll(rows)| == 0;
    }
  }

  lemma DecodeChunksCons(chunks: seq<string>, first: Color, rest: seq<Color>)
    requires chunks != [] && DecodeChunk(chunks[0]) == Some(first) && DecodeChunks(chunks[1..]) == Some(rest)
    ensures DecodeChunks(chunks) == Some([first] + rest)
  {
  }

  /** Dropping the first row drops the first entry of each per-row sequence. */
  lemma RowsTail(rows: seq<Pixel>)
    requires AllShown(rows) && rows != []
    ensures RowHexes(rows)[1..] == RowHexes(rows[1..])
    ensures QuantizedAll(rows)[1..] == QuantizedAll(rows[1..])
  {
    var tail := rows[1..];
    assert forall k :: 0 <= k < |tail| ==> tail[k] == rows[k + 1];
  }

  /**
   * Reading back what was written: a table without NaN rows comes back
   * colour by colour, each channel rounded to the byte it was written as;
   * a table with one comes back as the "N/A" refusal.
   */
  lemma EncodeDecode(rows: seq<Pixel>)
    requires forall i :: 0 <= i < |rows| && rows[i].Shown? ==> Displayable(rows[i].color)
    ensures (exists i :: 0 <= i < |rows| && rows[i].NotANumber?) ==> DecodeColors(EncodeColors(rows)) == Err(NotAvailable)
    ensures AllShown(rows) ==>
      DecodeColors(EncodeColors(rows)) == Ok(QuantizedAll(rows))
  {
    if AllShown(rows) {
      var blob := HexBlob(rows);
      assert |blob| != 3;
      ChunksOfBlob(rows);
      DecodeRows(rows);
    }
  }
}

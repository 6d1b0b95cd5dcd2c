/** src/openai_go/positions.py: `convert_observation` turns the one-hot board planes of an
    OpenAI Gym Go observation into one greyscale image per board, black 1, white 255 and an
    empty point 127. Arrays are nested sequences indexed in numpy's axis order. */
module Observation {
  import opened Wrappers

  /** One plane of a board, `plane[row][column]`. */
  type Plane = seq<seq<int>>

  /** The planes of one observation along axis 0, `stack[channel][row][column]`. */
  type Stack = seq<Plane>

  /** The weights of `colour_values`: black, white, board. */
  const BLACK_VALUE: int := 1
  const WHITE_VALUE: int := 255
  const BOARD_VALUE: int := 127

  /** The observation handed in: a 3-dimensional array gets a leading batch axis; a
      4-dimensional one is already a batch. */
  datatype Obs = Single(stack: Stack) | Batch(stacks: seq<Stack>)

  /** numpy's "operands could not be broadcast together". */
  datatype ObsError = BroadcastError

  predicate IsPlane(p: Plane, h: nat, w: nat) {
    |p| == h && forall y :: 0 <= y < h ==> |p[y]| == w
  }

  predicate IsStack(s: Stack, c: nat, h: nat, w: nat) {
    |s| == c && forall k :: 0 <= k < c ==> IsPlane(s[k], h, w)
  }

  /** A numpy array of shape `(n, c, h, w)`. */
  predicate IsBatch(b: seq<Stack>, c: nat, h: nat, w: nat) {
    forall i :: 0 <= i < |b| ==> IsStack(b[i], c, h, w)
  }

  /** `go_obs[np.newaxis]` when `go_obs` has three dimensions. */
  function Batched(o: Obs): seq<Stack> {
    match o
    case Single(s) => [s]
    case Batch(b) => b
  }

  /** The lengths of axes 1, 2 and 3 of the batch, read from its first entries; axis 1 is
      broadcast against the 3 of `colour_values.reshape(1, 3, 1, 1)`. */
  function Dims(b: seq<Stack>): (nat, nat, nat) {
    var c := if b == [] then 0 else |b[0]|;
    var h := if c == 0 then 0 else |b[0][0]|;
    var w := if h == 0 then 0 else |b[0][0][0]|;
    (c, h, w)
  }

  /** Observations are arrays, so every plane of every board has the same shape. */
  predicate Rectangular(o: Obs) {
    var b := Batched(o);
    IsBatch(b, Dims(b).0, Dims(b).1, Dims(b).2)
  }

  /** One output pixel: the channel values at `(y, x)` times the weights, summed; a single
      channel is broadcast to all three weights. */
  function Pixel(s: Stack, y: nat, x: nat): int
    requires |s| == 1 || |s| == 3
    requires forall k :: 0 <= k < |s| ==> y < |s[k]| && x < |s[k][y]|
  {
    if |s| == 1 then (BLACK_VALUE + WHITE_VALUE + BOARD_VALUE) * s[0][y][x]
    else BLACK_VALUE * s[0][y][x] + WHITE_VALUE * s[1][y][x] + BOARD_VALUE * s[2][y][x]
  }

  /** `convert_observation`: an `(n, h, w)` array of greyscale pixels, one image per board of
      the batch, each pixel the weighted sum of the channels at its point; the channels are
      read from axis 1, and an axis 1 that is neither 1 nor 3 long cannot be broadcast. */
  function Convert(o: Obs): (r: Result<seq<Plane>, ObsError>)
    requires Rectangular(o)
    ensures var b := Batched(o);
      r.Err? <==> b != [] && Dims(b).0 != 1 && Dims(b).0 != 3
    ensures r.Ok? ==> var b := Batched(o); var (c, h, w) := Dims(b);
      |r.value| == |b| && (forall i :: 0 <= i < |b| ==> IsPlane(r.value[i], h, w)) &&
      forall i, y, x :: 0 <= i < |b| && 0 <= y < h && 0 <= x < w ==> r.value[i][y][x] == Pixel(b[i], y, x)
  {
    var b := Batched(o);
    if b == [] then Ok([])
    else if Dims(b).0 != 1 && Dims(b).0 != 3 then Err(BroadcastError)
    else
      var (c, h, w) := Dims(b);
      Ok(seq(|b|, i requires 0 <= i < |b| =>
        seq(h, y requires 0 <= y < h =>
          seq(w, x requires 0 <= x < w => Pixel(b[i], y, x)))))
  }

  /** A 3-dimensional observation is converted as the batch that holds only it. */
  lemma SingleIsBatchOfOne(s: Stack)
    requires Rectangular(Single(s))
    ensures Rectangular(Batch([s])) && Convert(Single(s)) == Convert(Batch([s]))
  {
  }

  /** The colour of a point of the board. */
  datatype Colour = Black | White | Empty

  /** The one-hot planes of a board in the order black, white, board: each point is 1 in the
      plane of its colour and 0 in the other two. */
  function OneHot(board: seq<seq<Colour>>, h: nat, w: nat): (s: Stack)
    requires |board| == h && forall y :: 0 <= y < h ==> |board[y]| == w
    ensures IsStack(s, 3, h, w)
  {
    seq(3, k requires 0 <= k < 3 =>
      seq(h, y requires 0 <= y < h =>
        seq(w, x requires 0 <= x < w =>
          var c := board[y][x];
          if (k == 0 && c == Black) || (k == 1 && c == White) || (k == 2 && c == Empty) then 1 else 0)))
  }

  /** The colour a greyscale pixel stands for, if any. */
  function Decode(pixel: int): Option<Colour> {
    if pixel == BLACK_VALUE then Some(Black)
    else if pixel == WHITE_VALUE then Some(White)
    else if pixel == BOARD_VALUE then Some(Empty)
    else None
  }

  /** One-hot black, white and empty points map to 1, 255 and 127, so a converted board can be
      read back point by point. */
  lemma {:induction false} OneHotRoundTrip(board: seq<seq<Colour>>, h: nat, w: nat)
    requires h > 0 && |board| == h && forall y :: 0 <= y < h ==> |board[y]| == w
    ensures var s := OneHot(board, h, w);
      Rectangular(Single(s)) && Convert(Single(s)).Ok? &&
      var img := Convert(Single(s)).value;
      |img| == 1 && IsPlane(img[0], h, w) &&
      forall y, x :: 0 <= y < h && 0 <= x < w ==> Decode(img[0][y][x]) == Some(board[y][x])
  {
    var s := OneHot(board, h, w);
    assert Dims([s]) == (3, h, w);
    var img := Convert(Single(s)).value;
    forall y, x | 0 <= y < h && 0 <= x < w
      ensures Decode(img[0][y][x]) == Some(board[y][x])
    {
      assert img[0][y][x] == Pixel(s, y, x);
      match board[y][x]
      case Black => assert s[0][y][x] == 1 && s[1][y][x] == 0 && s[2][y][x] == 0;
      case White => assert s[0][y][x] == 0 && s[1][y][x] == 1 && s[2][y][x] == 0;
      case Empty => assert s[0][y][x] == 0 && s[1][y][x] == 0 && s[2][y][x] == 1;
    }
  }

  /** The layout the docstring describes, `SIZE x SIZE x 3` with the channels last, cannot be
      converted on a 19 × 19 board: axis 1 is then 19 long. */
  lemma ChannelsLastRaises(s: Stack)
    requires IsStack(s, 19, 19, 3)
    ensures Rectangular(Single(s)) && Convert(Single(s)) == Err(BroadcastError)
  {
    assert Dims([s]) == (19, 19, 3);
  }
}

/** From the samples heard to the blocks committed: what the conversion thread computes when its transforms are discrete
    Fourier transforms. */
module FilteredOutput {
  import opened Complex
  import opened Sums
  import opened Dft
  import opened Convolution
  import opened Tuning
  import opened R2iqStream
  import opened OverlapScrap
  import R2iq

  /** As many windows as the stream has room for. */
  lemma {:induction false} OutLength(s: Setup, x: seq<real>, windows: nat)
    requires s.Ok() && |x| == 2048 + 8192 * windows
    ensures |s.Out(x)| == windows * Useful(s.decimation)
    decreases windows
  {
    var u := Useful(s.decimation);
    if windows > 0 {
      OutLength(s, x[8192..], windows - 1);
      assert windows * u == u + (windows - 1) * u;
    }
  }

  /** Output sample m of window j exists only if the window does. */
  lemma WindowExists(windows: nat, u: nat, j: nat, m: nat)
    requires m < u && j * u + m < windows * u
    ensures j < windows
  {
    if j >= windows { Above(j, windows, u); }
  }

  lemma Above(j: nat, windows: nat, u: nat)
    requires j >= windows
    ensures j * u >= windows * u
  {
  }

  lemma RoomForWindow(s: Setup, x: seq<real>, windows: nat, j: nat, m: nat)
    requires s.Ok() && |x| == 2048 + 8192 * windows && m < Useful(s.decimation)
    requires j * Useful(s.decimation) + m < |s.Out(x)|
    ensures 8192 * j + 10240 <= |x|
  {
    OutLength(s, x, windows);
    WindowExists(windows, Useful(s.decimation), j, m);
  }

  lemma PrefixIsFiltered(s: Setup, w: Root, x: seq<real>, prefix: seq<Cplx>, j: nat, m: nat, k: nat, at: nat)
    requires s.Ok() && IsRoot(w) && Transforms(s, w) && s.center % 5 == 0 && m < Useful(s.decimation)
    requires k == j * Useful(s.decimation) + m < |prefix| && 8192 * j + 10240 <= |x| && prefix <= s.Out(x)
    requires at == k * Spacing(s)
    ensures prefix[k] == Mirrored(Sum(10240, From(Share(MixedDown(s, w, x), Response(s, w), at), 8192 * j)), s.lsb)
  {
    StreamIsFiltered(s, w, x, j, m, k, at);
  }

  /** Every sample of the blocks committed, in every state between turns: everything heard so far, converted, mixed down by the
      centre bin with one phase from the first sample on, and filtered over its window. */
  lemma CommittedIsFiltered(c: R2iq.Converter, w: Root, j: nat, m: nat, k: nat, at: nat)
    requires c.Valid() && IsRoot(w) && Transforms(c.setup, w) && c.setup.center % 5 == 0 && m < Useful(c.setup.decimation)
    requires k == j * Useful(c.setup.decimation) + m < |R2iq.Flat(c.committed)| && at == k * Spacing(c.setup)
    ensures var x := ConvertAll(c.heard, c.setup.rand);
            && 8192 * j + 10240 <= |x|
            && R2iq.Flat(c.committed)[k] ==
               Mirrored(Sum(10240, From(Share(MixedDown(c.setup, w, x), Response(c.setup, w), at), 8192 * j)), c.setup.lsb)
  {
    var x, flat := ConvertAll(c.heard, c.setup.rand), R2iq.Flat(c.committed);
    PrefixOfOut(c, x, flat);
    RoomForWindow(c.setup, x, c.windows, j, m);
    PrefixIsFiltered(c.setup, w, x, flat, j, m, k, at);
  }

  lemma PrefixOfOut(c: R2iq.Converter, x: seq<real>, flat: seq<Cplx>)
    requires c.Valid() && x == ConvertAll(c.heard, c.setup.rand) && flat == R2iq.Flat(c.committed)
    ensures flat <= c.setup.Out(x)
  {
    c.CommittedIsPrefix();
  }
}

/** The layout of the 14 window features: how dataset/extract_window_features.py names and
    orders the training columns, and how the prover screens order the values they hand to
    the forest. The statistics themselves (numpy's and Swift's means, variances and
    magnitudes) are abstract: `stats` maps each feature to its value of type `V`. */
module FeatureLayout {
  import opened Common
  import opened Presence

  datatype Channel = AX | AY | AZ | GX | GY | GZ | MAG
  datatype Quantity = Mean | Var
  datatype Feature = Feature(channel: Channel, quantity: Quantity)

  /** The six raw channels, in column order `ch = ['ax','ay','az','gx','gy','gz']`. */
  const Channels: seq<Channel> := [AX, AY, AZ, GX, GY, GZ]

  const FeatureCount: nat := 14
  const LabelColumn := "label"

  function ChannelName(c: Channel): string {
    match c
    case AX => "ax"
    case AY => "ay"
    case AZ => "az"
    case GX => "gx"
    case GY => "gy"
    case GZ => "gz"
    case MAG => "mag"
  }

  function QuantitySuffix(q: Quantity): string {
    if q == Mean then "_mean" else "_var"
  }

  /** A column name such as "ax_mean". */
  function FeatureName(f: Feature): string {
    ChannelName(f.channel) + QuantitySuffix(f.quantity)
  }

  /** The feature a column of the header names: per channel its mean then its variance,
      then the magnitude's mean and variance. */
  function HeaderLayout(i: nat): (f: Feature)
    requires i < FeatureCount
    ensures i < 12 ==> f.channel == Channels[i / 2] && (f.quantity == Mean <==> i % 2 == 0)
    ensures i >= 12 ==> f.channel == MAG && (f.quantity == Mean <==> i == 12)
  {
    if i < 12 then Feature(Channels[i / 2], if i % 2 == 0 then Mean else Var)
    else Feature(MAG, if i == 12 then Mean else Var)
  }

  // ---------------------------------------------------------------------------
  // The header

  /** The header loop: two names per channel, the magnitude's two, then "label". */
  method BuildHeader() returns (header: seq<string>)
    ensures |header| == FeatureCount + 1 && header[FeatureCount] == LabelColumn
    ensures forall i | 0 <= i < FeatureCount :: header[i] == FeatureName(HeaderLayout(i))
  {
    header := [];
    for k := 0 to |Channels|
      invariant HeaderPrefix(header, 2 * k)
    {
      var c := ChannelName(Channels[k]);
      HeaderStep(header, k);
      header := header + [c + "_mean", c + "_var"];
    }
    HeaderMagStep(header);
    header := header + ["mag_mean", "mag_var"];
    header := header + [LabelColumn];
  }

  /** `header` holds the first `n` column names. */
  predicate HeaderPrefix(header: seq<string>, n: nat)
    requires n <= FeatureCount
  {
    |header| == n && forall i | 0 <= i < n :: header[i] == FeatureName(HeaderLayout(i))
  }

  /** Appending channel `k`'s two names extends the prefix by two columns. */
  lemma HeaderStep(header: seq<string>, k: nat)
    requires k < 6 && HeaderPrefix(header, 2 * k)
    ensures HeaderPrefix(header + [ChannelName(Channels[k]) + "_mean", ChannelName(Channels[k]) + "_var"], 2 * k + 2)
  {
    var c := Channels[k];
    var next := header + [FeatureName(Feature(c, Mean)), FeatureName(Feature(c, Var))];
    assert HeaderLayout(2 * k) == Feature(c, Mean);
    assert HeaderLayout(2 * k + 1) == Feature(c, Var);
    assert forall i | 0 <= i < 2 * k + 2 :: next[i] == FeatureName(HeaderLayout(i));
  }

  /** The magnitude's two names complete the 14 feature columns. */
  lemma HeaderMagStep(header: seq<string>)
    requires HeaderPrefix(header, 12)
    ensures HeaderPrefix(header + ["mag_mean", "mag_var"], 14)
  {
    assert FeatureName(HeaderLayout(12)) == "mag_mean" && FeatureName(HeaderLayout(13)) == "mag_var";
  }

  // ---------------------------------------------------------------------------
  // `window_features` as written

  /** The feature `window_features` puts at position `i`: the six means, the six
      variances, then the magnitude's mean and variance. */
  function PyLayout(i: nat): Feature
    requires i < FeatureCount
  {
    if i < 6 then Feature(Channels[i], Mean)
    else if i < 12 then Feature(Channels[i - 6], Var)
    else Feature(MAG, if i == 12 then Mean else Var)
  }

  /** `arr.mean(axis=0)`, then `arr.var(axis=0)`, then `[mag.mean(), mag.var()]`. */
  function WindowFeatures<V>(stats: Feature -> V): (feats: seq<V>)
    ensures |feats| == FeatureCount
    ensures forall i | 0 <= i < FeatureCount :: feats[i] == stats(PyLayout(i))
  {
    seq(6, i requires 0 <= i < 6 => stats(Feature(Channels[i], Mean))) +
    seq(6, i requires 0 <= i < 6 => stats(Feature(Channels[i], Var))) +
    [stats(Feature(MAG, Mean)), stats(Feature(MAG, Var))]
  }

  /** Only columns 0, 11, 12 and 13 hold the quantity their header names; the other ten
      are mislabelled. */
  lemma HeaderMismatch(i: nat)
    requires i < FeatureCount
    ensures PyLayout(i) == HeaderLayout(i) <==> i == 0 || i == 11 || i == 12 || i == 13
  {
    if 0 < i < 11 {
      if i < 6 {
        assert PyLayout(i).channel == Channels[i] != Channels[i / 2] || PyLayout(i).quantity != HeaderLayout(i).quantity;
      } else {
        assert PyLayout(i).channel == Channels[i - 6] != Channels[i / 2] || PyLayout(i).quantity != HeaderLayout(i).quantity;
      }
    }
  }

  /** For example the column named "ax_var" holds ay's mean. */
  lemma AxVarColumnHoldsAyMean<V>(stats: Feature -> V)
    ensures FeatureName(HeaderLayout(1)) == "ax_var"
    ensures WindowFeatures(stats)[1] == stats(Feature(AY, Mean))
  {
  }

  // ---------------------------------------------------------------------------
  // The interleaved order (the header's, and what the prover screens compute)

  /** Mean then variance for each channel, in order. */
  function PerChannel<V>(stats: Feature -> V, cs: seq<Channel>): (feats: seq<V>)
    ensures |feats| == 2 * |cs|
  {
    if cs == [] then []
    else
      var last := cs[|cs| - 1];
      PerChannel(stats, cs[..|cs| - 1]) + [stats(Feature(last, Mean)), stats(Feature(last, Var))]
  }

  lemma {:induction false} PerChannelAt<V>(stats: Feature -> V, cs: seq<Channel>, i: nat)
    requires i < 2 * |cs|
    ensures PerChannel(stats, cs)[i] == stats(Feature(cs[i / 2], if i % 2 == 0 then Mean else Var))
  {
    var init := cs[..|cs| - 1];
    if i < 2 * |init| {
      PerChannelAt(stats, init, i);
    }
  }

  /** The corrected `window_features`: the same values in the header's order. */
  function InterleavedFeatures<V>(stats: Feature -> V): (feats: seq<V>)
    ensures |feats| == FeatureCount
  {
    PerChannel(stats, Channels) + [stats(Feature(MAG, Mean)), stats(Feature(MAG, Var))]
  }

  /** With the interleaved order every column holds exactly the quantity its name says. */
  lemma InterleavedMatchesHeader<V>(stats: Feature -> V)
    ensures forall i | 0 <= i < FeatureCount :: InterleavedFeatures(stats)[i] == stats(HeaderLayout(i))
  {
    forall i | 0 <= i < FeatureCount
      ensures InterleavedFeatures(stats)[i] == stats(HeaderLayout(i))
    {
      if i < 12 {
        PerChannelAt(stats, Channels, i);
      }
    }
  }

  /** The prover screens' feature loop (`for i in 0..<6 { append mean; append var }`,
      then the magnitude's mean and variance). */
  method BuildSwiftFeatures<V>(stats: Feature -> V) returns (feats: seq<V>)
    ensures feats == InterleavedFeatures(stats)
  {
    feats := [];
    for i := 0 to 6
      invariant feats == PerChannel(stats, Channels[..i])
    {
      assert Channels[..i + 1][..i] == Channels[..i];
      feats := feats + [stats(Feature(Channels[i], Mean))];
      feats := feats + [stats(Feature(Channels[i], Var))];
    }
    assert Channels[..6] == Channels;
    feats := feats + [stats(Feature(MAG, Mean))];
    feats := feats + [stats(Feature(MAG, Var))];
  }

  /** The named arguments of `rfModel.prediction`, each with the index of `feats` it is
      given. */
  const PredictionArguments: seq<(string, nat)> := [
    ("ax_mean", 0), ("ax_var", 1), ("ay_mean", 2), ("ay_var", 3), ("az_mean", 4), ("az_var", 5),
    ("gx_mean", 6), ("gx_var", 7), ("gy_mean", 8), ("gy_var", 9), ("gz_mean", 10), ("gz_var", 11),
    ("mag_mean", 12), ("mag_var", 13)]

  /** Every argument gets the value of the feature it is named after. */
  lemma PredictionArgumentsMatch<V>(stats: Feature -> V)
    ensures |PredictionArguments| == FeatureCount
    ensures forall k | 0 <= k < FeatureCount ::
      PredictionArguments[k].1 == k && PredictionArguments[k].0 == FeatureName(HeaderLayout(k))
    ensures forall k | 0 <= k < FeatureCount ::
      InterleavedFeatures(stats)[PredictionArguments[k].1] == stats(HeaderLayout(k))
  {
    InterleavedMatchesHeader(stats);
    forall k | 0 <= k < FeatureCount
      ensures PredictionArguments[k].0 == FeatureName(HeaderLayout(k))
    {
      PredictionArgumentName(k);
    }
  }

  lemma PredictionArgumentName(k: nat)
    requires k < FeatureCount
    ensures PredictionArguments[k].1 == k && PredictionArguments[k].0 == FeatureName(HeaderLayout(k))
  {
  }

  // ---------------------------------------------------------------------------
  // Labels and windows

  /** The last index of `c` in `s`. */
  function LastIndex(s: string, c: char): (r: Option<nat>)
    ensures r.Some? ==> r.value < |s| && s[r.value] == c && forall j | r.value < j < |s| :: s[j] != c
    ensures r.None? ==> forall j | 0 <= j < |s| :: s[j] != c
  {
    if s == [] then None
    else if s[|s| - 1] == c then Some(|s| - 1)
    else LastIndex(s[..|s| - 1], c)
  }

  /** `os.path.basename`: what follows the last '/'. */
  function Basename(path: string): (b: string)
    ensures forall j | 0 <= j < |b| :: b[j] != '/'
  {
    match LastIndex(path, '/')
    case None => path
    case Some(i) => path[i + 1..]
  }

  /** `os.path.splitext(b)[0]`: cut at the last '.', unless only dots precede it. */
  function Stem(b: string): (r: string)
    ensures |r| <= |b| && r == b[..|r|]
    ensures r == b || (|r| < |b| && b[|r|] == '.' && forall j | |r| < j < |b| :: b[j] != '.')
    ensures r != b ==> exists j | 0 <= j < |r| :: b[j] != '.'
    ensures forall j, d | 0 <= j < d < |b| && b[j] != '.' && b[d] == '.' :: r != b
  {
    match LastIndex(b, '.')
    case None => b
    case Some(d) => if forall j | 0 <= j < d :: b[j] == '.' then b else b[..d]
  }

  const RawDirectory := "raw"

  /** The label column of a file's rows. */
  function Label(path: string): string {
    Stem(Basename(path))
  }

  /** A file `raw/<name>.csv` is labelled `<name>`. */
  lemma LabelOfCsv(name: string)
    requires forall j | 0 <= j < |name| :: name[j] != '/'
    requires exists j | 0 <= j < |name| :: name[j] != '.'
    ensures Label(RawDirectory + "/" + name + ".csv") == name
  {
    var file := name + ".csv";
    assert RawDirectory + "/" + name + ".csv" == (RawDirectory + "/") + file;
    BasenameAfterSlash(RawDirectory, file);
    StemOfCsv(name);
  }

  lemma BasenameAfterSlash(dir: string, file: string)
    requires forall j | 0 <= j < |file| :: file[j] != '/'
    ensures Basename((dir + "/") + file) == file
  {
    var path := (dir + "/") + file;
    LastIndexInSuffix(dir + "/", file, '/');
    assert path[|dir| + 1..] == file;
  }

  lemma StemOfCsv(name: string)
    requires exists j | 0 <= j < |name| :: name[j] != '.'
    ensures Stem(name + ".csv") == name
  {
    var file := name + ".csv";
    assert file == (name + ".") + "csv";
    LastIndexInSuffix(name + ".", "csv", '.');
    assert LastIndex(file, '.') == Some(|name|);
    var k :| 0 <= k < |name| && name[k] != '.';
    assert file[k] != '.';
    assert file[..|name|] == name;
  }

  /** With no `c` in `t`, the last `c` of `s + t` is the last one of `s`. */
  lemma {:induction false} LastIndexInSuffix(s: string, t: string, c: char)
    requires forall j | 0 <= j < |t| :: t[j] != c
    ensures LastIndex(s + t, c) == LastIndex(s, c)
  {
    if t != [] {
      var init := t[..|t| - 1];
      assert (s + t)[..|s + t| - 1] == s + init;
      LastIndexInSuffix(s, init, c);
    } else {
      assert s + t == s;
    }
  }

  /** An output row: the features, then the label. */
  datatype CsvRow<V> = CsvRow(features: seq<V>, name: string)

  /** `len(range(0, N - 100 + 1, 50))`. */
  function WindowCount(n: nat): (r: nat)
    ensures n < WindowSize ==> r == 0
    ensures n >= WindowSize ==> HopSize * (r - 1) + WindowSize <= n < HopSize * r + WindowSize
  {
    if n >= WindowSize then (n - WindowSize) / HopSize + 1 else 0
  }

  /** The main loop for one file: a row for every window of 100 consecutive rows starting
      at 0, 50, 100, ...; `features` is the per-window feature function. */
  method ExtractRows<V>(path: string, data: seq<Row>, features: seq<Row> -> seq<V>) returns (rows: seq<CsvRow<V>>)
    ensures |rows| == WindowCount(|data|)
    ensures forall k | 0 <= k < |rows| ::
      HopSize * k + WindowSize <= |data| &&
      rows[k] == CsvRow(features(data[HopSize * k..HopSize * k + WindowSize]), Label(path))
  {
    var fileLabel := Label(path);
    rows := [];
    var start := 0;
    while start + WindowSize <= |data|
      invariant start == HopSize * |rows|
      invariant |rows| > 0 ==> HopSize * (|rows| - 1) + WindowSize <= |data|
      invariant forall k | 0 <= k < |rows| ::
        HopSize * k + WindowSize <= |data| &&
        rows[k] == CsvRow(features(data[HopSize * k..HopSize * k + WindowSize]), fileLabel)
      decreases |data| - start
    {
      var win := data[start..start + WindowSize];
      rows := rows + [CsvRow(features(win), fileLabel)];
      start := start + HopSize;
    }
  }
}

/**
 * The package progress grid: one card per package, showing the package's ROI
 * read from the contract and how far its earnings have come toward the cap
 * of three times the package.
 */
module ProgressPackage {
  import opened Wrappers

  /** The package sizes, in tokens. */
  const Packages: seq<nat> := [5, 10, 25, 50, 100, 250, 500, 1000, 2500, 5000, 10000, 20000, 50000, 100000]

  /** The token has 18 decimals. */
  const WeiPerToken: nat := 1_000_000_000_000_000_000

  datatype Icon = TrendingUp | Zap | Target

  const PackageIcons: map<nat, Icon> := map[
    5 := TrendingUp, 10 := TrendingUp, 25 := TrendingUp,
    50 := Zap, 100 := Zap, 250 := Zap,
    500 := Target, 1000 := Target, 2500 := Target,
    5000 := TrendingUp, 10000 := TrendingUp, 20000 := TrendingUp, 50000 := TrendingUp, 100000 := TrendingUp]

  /** The package sizes rise strictly, are all positive, and each has an icon. */
  lemma PackagesTable()
    ensures forall i, j :: 0 <= i < j < |Packages| ==> Packages[i] < Packages[j]
    ensures forall p :: p in Packages ==> p > 0 && p in PackageIcons
    ensures PackageIcons.Keys == set p | p in Packages
  {
    StrictlyIncreasing(Packages);
  }

  /** Increasing at each step is increasing at every pair. */
  lemma {:induction false} StrictlyIncreasing(s: seq<nat>)
    requires forall i :: 0 < i < |s| ==> s[i - 1] < s[i]
    ensures forall i, j :: 0 <= i < j < |s| ==> s[i] < s[j]
  {
    if |s| > 1 {
      var t := s[1..];
      StrictlyIncreasing(t);
      forall i, j | 0 <= i < j < |s|
        ensures s[i] < s[j]
      {
        if i > 0 {
          assert s[i] == t[i - 1] && s[j] == t[j - 1];
        } else if j > 1 {
          assert s[1] == t[0] && s[j] == t[j - 1];
        }
      }
    }
  }

  /** `BigInt(pkg) * 10n ** 18n`: the package amount the contract is asked about. */
  function PackageWei(pkg: nat): (w: nat)
    ensures w / WeiPerToken == pkg && w % WeiPerToken == 0
  {
    pkg * WeiPerToken
  }

  /** Different packages are asked about with different amounts. */
  lemma PackageWeiInjective(p: nat, q: nat)
    requires PackageWei(p) == PackageWei(q)
    ensures p == q
  {
  }

  /** `getPackageRoiStatus`'s result, in wei. */
  datatype RoiStatus = RoiStatus(totalRoi: nat, claimed: nat, pending: nat)

  /** The numbers one card shows, in tokens. */
  datatype CardView = CardView(
    total: real,
    claimed: real,
    pending: real,
    maxLimit: real,
    earned: real,
    progress: real,
    isCompleted: bool,
    barWidth: real)

  function Tokens(wei: nat): real {
    wei as real / WeiPerToken as real
  }

  function Min(a: real, b: real): real { if a <= b then a else b }

  /**
   * PackageCard's values: the cap is three times the package, earned is
   * claimed plus pending, progress is earned as a percentage of the cap (0 for
   * a zero cap), and the bar is the progress clipped at 100.
   */
  function View(pkg: nat, st: RoiStatus): (v: CardView)
    ensures v.total == Tokens(st.totalRoi) && v.claimed == Tokens(st.claimed) && v.pending == Tokens(st.pending)
    ensures v.maxLimit == 3.0 * pkg as real
    ensures v.earned == v.claimed + v.pending
    ensures v.isCompleted <==> v.earned >= v.maxLimit
    ensures v.maxLimit > 0.0 ==> v.progress * v.maxLimit == v.earned * 100.0
    ensures v.maxLimit == 0.0 ==> v.progress == 0.0
    ensures v.barWidth == Min(v.progress, 100.0)
  {
    var total := Tokens(st.totalRoi);
    var clm := Tokens(st.claimed);
    var pend := Tokens(st.pending);
    var maxLimit := (pkg * 3) as real;
    var earned := clm + pend;
    var progress := if maxLimit > 0.0 then (earned / maxLimit) * 100.0 else 0.0;
    CardView(total, clm, pend, maxLimit, earned, progress, earned >= maxLimit, Min(progress, 100.0))
  }

  /**
   * The bar's width lies in [0, 100]; for a positive package it is full
   * exactly when the card says "Completed".
   */
  lemma BarWidthLaws(pkg: nat, st: RoiStatus)
    ensures 0.0 <= View(pkg, st).barWidth <= 100.0
    ensures pkg > 0 ==> (View(pkg, st).barWidth == 100.0 <==> View(pkg, st).isCompleted)
  {
    var v := View(pkg, st);
    assert v.earned >= 0.0;
    if pkg > 0 {
      ClippedPercentage(v.earned, v.maxLimit, v.progress);
    }
  }

  /** A non-negative share of a positive cap, as a percentage clipped at 100, is 100 exactly when the cap is reached. */
  lemma ClippedPercentage(earned: real, cap: real, progress: real)
    requires cap > 0.0 && earned >= 0.0 && progress * cap == earned * 100.0
    ensures 0.0 <= Min(progress, 100.0) <= 100.0
    ensures Min(progress, 100.0) == 100.0 <==> earned >= cap
  {
    var q := earned / cap;
    assert q * cap == earned;
    assert progress == q * 100.0;
    assert q >= 0.0;
    if q >= 1.0 {
      assert q * cap >= 1.0 * cap;
    } else {
      assert q * cap < 1.0 * cap;
    }
  }

  /**
   * The card's "Completed" state, restated in the contract's own wei: the
   * claimed and pending ROI together reach three times the package amount.
   */
  lemma CompletedInWei(pkg: nat, st: RoiStatus)
    ensures View(pkg, st).isCompleted <==> st.claimed + st.pending >= 3 * PackageWei(pkg)
  {
    var v := View(pkg, st);
    var w := WeiPerToken as real;
    assert v.earned == (st.claimed + st.pending) as real / w;
    assert v.maxLimit == (3 * PackageWei(pkg)) as real / w;
    if st.claimed + st.pending >= 3 * PackageWei(pkg) {
      DivideMonotone((3 * PackageWei(pkg)) as real, (st.claimed + st.pending) as real, w);
    } else {
      DivideStrict((st.claimed + st.pending) as real, (3 * PackageWei(pkg)) as real, w);
    }
  }

  lemma DivideMonotone(a: real, b: real, w: real)
    requires w > 0.0 && a <= b
    ensures a / w <= b / w
  {
    assert b / w - a / w == (b - a) / w;
  }

  lemma DivideStrict(a: real, b: real, w: real)
    requires w > 0.0 && a < b
    ensures a / w < b / w
  {
    assert b / w - a / w == (b - a) / w;
  }

  /** What the contract read gives PackageCard: still loading, an error or no data, or the status. */
  datatype Read = Loading | Failed | Loaded(status: RoiStatus)

  datatype Card = LoadingCard | FailedCard(pkg: nat) | ReadyCard(pkg: nat, view: CardView, icon: Option<Icon>)

  function PackageCard(pkg: nat, read: Read): (c: Card)
    ensures read.Loading? <==> c.LoadingCard?
    ensures read.Failed? <==> c == FailedCard(pkg)
    ensures read.Loaded? ==> c.ReadyCard? && c.pkg == pkg && c.view == View(pkg, read.status)
  {
    match read
    case Loading => LoadingCard
    case Failed => FailedCard(pkg)
    case Loaded(st) =>
      ReadyCard(pkg, View(pkg, st), if pkg in PackageIcons then Some(PackageIcons[pkg]) else None)
  }

  datatype Grid = ConnectPrompt | Cards(cards: seq<Card>)

  /**
   * ProgressPackage: a prompt without a wallet, otherwise one card per package
   * in table order, each from the contract read for that package's wei amount.
   */
  function ProgressGrid(connected: bool, read: nat -> Read): (g: Grid)
    ensures !connected <==> g.ConnectPrompt?
    ensures connected ==>
      (|g.cards| == |Packages|
       && forall i :: 0 <= i < |Packages| ==> g.cards[i] == PackageCard(Packages[i], read(PackageWei(Packages[i]))))
  {
    if !connected then ConnectPrompt
    else Cards(seq(|Packages|, i requires 0 <= i < |Packages| => PackageCard(Packages[i], read(PackageWei(Packages[i])))))
  }

  /** Every card that has loaded shows its package's icon. */
  lemma LoadedCardsHaveIcons(read: nat -> Read)
    ensures var g := ProgressGrid(true, read);
      forall i :: 0 <= i < |g.cards| && g.cards[i].ReadyCard? ==> g.cards[i].icon.Some?
  {
    PackagesTable();
  }
}

/** Fork schedules of two chain configurations: is a stored chain still valid
    under a new schedule, and if not, how far must it be rewound?  Models
    params/config.go.  Block numbers are Go's `*big.Int`: optional and signed. */
module ForkConfig {
  import opened Wrappers

  type BlockNum = Option<int>

  datatype ChainConfig = ChainConfig(
    chainID: BlockNum,
    homestead: BlockNum,
    daoFork: BlockNum,
    daoForkSupport: bool,
    eip150: BlockNum,
    eip155: BlockNum,
    eip158: BlockNum,
    byzantium: BlockNum,
    constantinople: BlockNum,
    petersburg: BlockNum,
    istanbul: BlockNum,
    muirGlacier: BlockNum,
    berlin: BlockNum,
    yoloV3: BlockNum,
    ewasm: BlockNum,
    catalyst: BlockNum
  ) {
    predicate IsHomestead(num: BlockNum) { IsForked(homestead, num) }
    predicate IsDAOFork(num: BlockNum) { IsForked(daoFork, num) }
    predicate IsEIP150(num: BlockNum) { IsForked(eip150, num) }
    predicate IsEIP155(num: BlockNum) { IsForked(eip155, num) }
    predicate IsEIP158(num: BlockNum) { IsForked(eip158, num) }
    predicate IsByzantium(num: BlockNum) { IsForked(byzantium, num) }
    predicate IsConstantinople(num: BlockNum) { IsForked(constantinople, num) }
    predicate IsMuirGlacier(num: BlockNum) { IsForked(muirGlacier, num) }
    predicate IsPetersburg(num: BlockNum) {
      IsForked(petersburg, num) || (petersburg.None? && IsForked(constantinople, num))
    }
    predicate IsIstanbul(num: BlockNum) { IsForked(istanbul, num) }
    predicate IsBerlin(num: BlockNum) { IsForked(berlin, num) || IsForked(yoloV3, num) }
    predicate IsCatalyst(num: BlockNum) { IsForked(catalyst, num) }
    predicate IsEWASM(num: BlockNum) { IsForked(ewasm, num) }
  }

  predicate IsForked(s: BlockNum, head: BlockNum) {
    s.Some? && head.Some? && s.value <= head.value
  }

  /** `configNumEqual`: equality of optional numbers is exactly datatype equality. */
  predicate IsForkIncompatible(s1: BlockNum, s2: BlockNum, head: BlockNum) {
    (IsForked(s1, head) || IsForked(s2, head)) && s1 != s2
  }

  /** What the error message names. */
  datatype What =
    | HomesteadBlock | DAOBlock | DAOSupportFlag | EIP150Block | EIP155Block | EIP158Block | EIP158ChainID
    | ByzantiumBlock | ConstantinopleBlock | PetersburgBlock | IstanbulBlock | MuirGlacierBlock | BerlinBlock
    | YoloV3Block | EWASMBlock

  /** `RewindTo` is fixed by the two blocks when the error is made, so it is derived here. */
  datatype CompatError = CompatError(what: What, stored: BlockNum, new_: BlockNum) {
    function RewindTo(): nat {
      var rew :=
        if stored.None? then new_
        else if new_.None? || stored.value < new_.value then stored
        else new_;
      if rew.Some? && rew.value > 0 then (rew.value % UINT64_LIMIT - 1) % UINT64_LIMIT else 0
    }
  }

  /** The private `checkCompatible`: the first conflict, in the source's order, at one head. */
  function ConflictAt(c: ChainConfig, n: ChainConfig, head: BlockNum): Option<CompatError> {
    if IsForkIncompatible(c.homestead, n.homestead, head) then
      Some(CompatError(HomesteadBlock, c.homestead, n.homestead))
    else if IsForkIncompatible(c.daoFork, n.daoFork, head) then
      Some(CompatError(DAOBlock, c.daoFork, n.daoFork))
    else if c.IsDAOFork(head) && c.daoForkSupport != n.daoForkSupport then
      Some(CompatError(DAOSupportFlag, c.daoFork, n.daoFork))
    else if IsForkIncompatible(c.eip150, n.eip150, head) then
      Some(CompatError(EIP150Block, c.eip150, n.eip150))
    else if IsForkIncompatible(c.eip155, n.eip155, head) then
      Some(CompatError(EIP155Block, c.eip155, n.eip155))
    else if IsForkIncompatible(c.eip158, n.eip158, head) then
      Some(CompatError(EIP158Block, c.eip158, n.eip158))
    else if c.IsEIP158(head) && c.chainID != n.chainID then
      Some(CompatError(EIP158ChainID, c.eip158, n.eip158))
    else if IsForkIncompatible(c.byzantium, n.byzantium, head) then
      Some(CompatError(ByzantiumBlock, c.byzantium, n.byzantium))
    else if IsForkIncompatible(c.constantinople, n.constantinople, head) then
      Some(CompatError(ConstantinopleBlock, c.constantinople, n.constantinople))
    else if IsForkIncompatible(c.petersburg, n.petersburg, head)
         && IsForkIncompatible(c.constantinople, n.petersburg, head) then
      Some(CompatError(PetersburgBlock, c.petersburg, n.petersburg))
    else if IsForkIncompatible(c.istanbul, n.istanbul, head) then
      Some(CompatError(IstanbulBlock, c.istanbul, n.istanbul))
    else if IsForkIncompatible(c.muirGlacier, n.muirGlacier, head) then
      Some(CompatError(MuirGlacierBlock, c.muirGlacier, n.muirGlacier))
    else if IsForkIncompatible(c.berlin, n.berlin, head) then
      Some(CompatError(BerlinBlock, c.berlin, n.berlin))
    else if IsForkIncompatible(c.yoloV3, n.yoloV3, head) then
      Some(CompatError(YoloV3Block, c.yoloV3, n.yoloV3))
    else if IsForkIncompatible(c.ewasm, n.ewasm, head) then
      Some(CompatError(EWASMBlock, c.ewasm, n.ewasm))
    else
      None
  }

  /** The block of the fork that an error names. */
  function BlockNamed(c: ChainConfig, what: What): BlockNum {
    match what
    case HomesteadBlock => c.homestead
    case DAOBlock => c.daoFork
    case DAOSupportFlag => c.daoFork
    case EIP150Block => c.eip150
    case EIP155Block => c.eip155
    case EIP158Block => c.eip158
    case EIP158ChainID => c.eip158
    case ByzantiumBlock => c.byzantium
    case ConstantinopleBlock => c.constantinople
    case PetersburgBlock => c.petersburg
    case IstanbulBlock => c.istanbul
    case MuirGlacierBlock => c.muirGlacier
    case BerlinBlock => c.berlin
    case YoloV3Block => c.yoloV3
    case EWASMBlock => c.ewasm
  }

  /** An error names a fork that really differs, or an activated one whose flag or chain ID
      does, with the blocks that the two configurations have for it. */
  lemma ErrorNamesItsBlocks(c: ChainConfig, n: ChainConfig, head: BlockNum)
    requires ConflictAt(c, n, head).Some?
    ensures var err := ConflictAt(c, n, head).value;
            && err.stored == BlockNamed(c, err.what) && err.new_ == BlockNamed(n, err.what)
            && (err.what.DAOSupportFlag? ==> err.stored == err.new_ && c.daoForkSupport != n.daoForkSupport)
            && (err.what.EIP158ChainID? ==> err.stored == err.new_ && c.chainID != n.chainID)
            && (!err.what.DAOSupportFlag? && !err.what.EIP158ChainID? ==> err.stored != err.new_)
            && (IsForked(err.stored, head) || IsForked(err.new_, head))
  {
  }

  predicate Compatible(c: ChainConfig, n: ChainConfig, height: int) {
    ConflictAt(c, n, Some(height)).None?
  }

  // ---------------------------------------------------------------- the rewind height

  /** `r` is the best answer to "how far to rewind": the largest compatible height at or
      below `height`, or 0 when there is none. */
  ghost predicate IsExactRewind(c: ChainConfig, n: ChainConfig, height: nat, r: nat) {
    && r <= height
    && (r == 0 || Compatible(c, n, r))
    && forall h: nat {:trigger Compatible(c, n, h)} :: r < h <= height ==> !Compatible(c, n, h)
  }

  function Earliest(s1: BlockNum, s2: BlockNum): BlockNum {
    if s1.None? then s2 else if s2.None? then s1 else if s1.value <= s2.value then s1 else s2
  }

  // The chain of tests as a table: test k reports at every head from `start` on.

  datatype Check = Check(what: What, stored: BlockNum, new_: BlockNum, start: BlockNum)

  function ChangeStart(s1: BlockNum, s2: BlockNum): BlockNum {
    if s1 == s2 then None else Earliest(s1, s2)
  }

  function ForkCheck(what: What, stored: BlockNum, new_: BlockNum): (k: Check)
    ensures forall head :: Fires(k, head) <==> IsForkIncompatible(stored, new_, Some(head))
    ensures k.start.Some? ==> Block(k) == k.start
  {
    Check(what, stored, new_, ChangeStart(stored, new_))
  }

  function Latest(s1: BlockNum, s2: BlockNum): BlockNum {
    if s1.None? || s2.None? then None else if s1.value <= s2.value then s2 else s1
  }

  const PETERSBURG: nat := 9

  function Checks(c: ChainConfig, n: ChainConfig): (ks: seq<Check>)
    ensures |ks| == 15
  {
    [ ForkCheck(HomesteadBlock, c.homestead, n.homestead),
      ForkCheck(DAOBlock, c.daoFork, n.daoFork),
      Check(DAOSupportFlag, c.daoFork, n.daoFork,
            if c.daoForkSupport == n.daoForkSupport then None else c.daoFork),
      ForkCheck(EIP150Block, c.eip150, n.eip150),
      ForkCheck(EIP155Block, c.eip155, n.eip155),
      ForkCheck(EIP158Block, c.eip158, n.eip158),
      Check(EIP158ChainID, c.eip158, n.eip158, if c.chainID == n.chainID then None else c.eip158),
      ForkCheck(ByzantiumBlock, c.byzantium, n.byzantium),
      ForkCheck(ConstantinopleBlock, c.constantinople, n.constantinople),
      Check(PetersburgBlock, c.petersburg, n.petersburg,
            Latest(ChangeStart(c.petersburg, n.petersburg),
                   ChangeStart(c.constantinople, n.petersburg))),
      ForkCheck(IstanbulBlock, c.istanbul, n.istanbul),
      ForkCheck(MuirGlacierBlock, c.muirGlacier, n.muirGlacier),
      ForkCheck(BerlinBlock, c.berlin, n.berlin),
      ForkCheck(YoloV3Block, c.yoloV3, n.yoloV3),
      ForkCheck(EWASMBlock, c.ewasm, n.ewasm) ]
  }

  predicate Fires(k: Check, head: int) {
    k.start.Some? && k.start.value <= head
  }

  /** Position of the first test of the table, from position k on, that reports at a head. */
  function FirstFrom(ks: seq<Check>, head: int, k: nat): (i: nat)
    requires k <= |ks|
    ensures k <= i <= |ks|
    ensures forall j | k <= j < i :: !Fires(ks[j], head)
    ensures i < |ks| ==> Fires(ks[i], head)
    decreases |ks| - k
  {
    if k == |ks| || Fires(ks[k], head) then k else FirstFrom(ks, head, k + 1)
  }

  function ErrorOf(k: Check): CompatError {
    CompatError(k.what, k.stored, k.new_)
  }

  /** Each row of the table reports exactly when its test in the branch chain does. */
  lemma FirstRowsMatch(c: ChainConfig, n: ChainConfig, head: int)
    ensures var ks, h := Checks(c, n), Some(head);
            && (Fires(ks[0], head) <==> IsForkIncompatible(c.homestead, n.homestead, h))
            && (Fires(ks[1], head) <==> IsForkIncompatible(c.daoFork, n.daoFork, h))
            && (Fires(ks[2], head) <==> c.IsDAOFork(h) && c.daoForkSupport != n.daoForkSupport)
            && (Fires(ks[3], head) <==> IsForkIncompatible(c.eip150, n.eip150, h))
  {
  }

  lemma SecondRowsMatch(c: ChainConfig, n: ChainConfig, head: int)
    ensures var ks, h := Checks(c, n), Some(head);
            && (Fires(ks[4], head) <==> IsForkIncompatible(c.eip155, n.eip155, h))
            && (Fires(ks[5], head) <==> IsForkIncompatible(c.eip158, n.eip158, h))
            && (Fires(ks[6], head) <==> c.IsEIP158(h) && c.chainID != n.chainID)
            && (Fires(ks[7], head) <==> IsForkIncompatible(c.byzantium, n.byzantium, h))
  {
  }

  lemma EarlyRowsMatch(c: ChainConfig, n: ChainConfig, head: int)
    ensures var ks, h := Checks(c, n), Some(head);
            && (Fires(ks[0], head) <==> IsForkIncompatible(c.homestead, n.homestead, h))
            && (Fires(ks[1], head) <==> IsForkIncompatible(c.daoFork, n.daoFork, h))
            && (Fires(ks[2], head) <==> c.IsDAOFork(h) && c.daoForkSupport != n.daoForkSupport)
            && (Fires(ks[3], head) <==> IsForkIncompatible(c.eip150, n.eip150, h))
            && (Fires(ks[4], head) <==> IsForkIncompatible(c.eip155, n.eip155, h))
            && (Fires(ks[5], head) <==> IsForkIncompatible(c.eip158, n.eip158, h))
            && (Fires(ks[6], head) <==> c.IsEIP158(h) && c.chainID != n.chainID)
            && (Fires(ks[7], head) <==> IsForkIncompatible(c.byzantium, n.byzantium, h))
  {
    FirstRowsMatch(c, n, head);
    SecondRowsMatch(c, n, head);
  }

  lemma PetersburgRowMatches(c: ChainConfig, n: ChainConfig, head: int)
    ensures var k, h := Checks(c, n)[PETERSBURG], Some(head);
            Fires(k, head) <==> (&& IsForkIncompatible(c.petersburg, n.petersburg, h)
                                 && IsForkIncompatible(c.constantinople, n.petersburg, h))
  {
  }

  lemma LateRowsMatch(c: ChainConfig, n: ChainConfig, head: int)
    ensures var ks, h := Checks(c, n), Some(head);
            && (Fires(ks[8], head) <==> IsForkIncompatible(c.constantinople, n.constantinople, h))
            && (Fires(ks[9], head) <==> (&& IsForkIncompatible(c.petersburg, n.petersburg, h)
                                        && IsForkIncompatible(c.constantinople, n.petersburg, h)))
            && (Fires(ks[10], head) <==> IsForkIncompatible(c.istanbul, n.istanbul, h))
            && (Fires(ks[11], head) <==> IsForkIncompatible(c.muirGlacier, n.muirGlacier, h))
            && (Fires(ks[12], head) <==> IsForkIncompatible(c.berlin, n.berlin, h))
            && (Fires(ks[13], head) <==> IsForkIncompatible(c.yoloV3, n.yoloV3, h))
            && (Fires(ks[14], head) <==> IsForkIncompatible(c.ewasm, n.ewasm, h))
  {
    PetersburgRowMatches(c, n, head);
  }

  /** The branch chain of the source reads the table in order. */
  lemma FirstFiring(c: ChainConfig, n: ChainConfig, head: int) returns (k: nat)
    ensures k == FirstFrom(Checks(c, n), head, 0)
    ensures ConflictAt(c, n, Some(head)) == if k == 15 then None else Some(ErrorOf(Checks(c, n)[k]))
  {
    var ks := Checks(c, n);
    k := FirstFrom(ks, head, 0);
    EarlyRowsMatch(c, n, head);
    LateRowsMatch(c, n, head);
    assert k < 15 ==> Fires(ks[k], head);
    assert forall j | 0 <= j < 15 :: j < k ==> !Fires(ks[j], head);
  }

  predicate Quiet(ks: seq<Check>, head: int) {
    forall k {:trigger Fires(ks[k], head)} | 0 <= k < |ks| :: !Fires(ks[k], head)
  }

  function Block(k: Check): BlockNum {
    Earliest(k.stored, k.new_)
  }

  /** No row starts before the earlier of its two blocks, and a row other than Petersburg's
      that is first to report started exactly there. */
  ghost predicate TableOk(ks: seq<Check>) {
    && |ks| == 15
    && (forall k | 0 <= k < 15 && ks[k].start.Some? :: Block(ks[k]).Some? && Block(ks[k]).value <= ks[k].start.value)
    && (forall head {:trigger FirstFrom(ks, head, 0)} ::
          var k := FirstFrom(ks, head, 0); k < 15 && k != PETERSBURG ==> Block(ks[k]) == ks[k].start)
  }

  /** A row starts at the earlier of its two blocks, or has a reason not to: the flag and
      chain-ID rows follow the row of their fork, and Petersburg's waits for its nested test. */
  lemma RowStart(c: ChainConfig, n: ChainConfig, k: nat, head: int)
    requires k < 15 && Fires(Checks(c, n)[k], head)
    ensures var ks := Checks(c, n);
            && Block(ks[k]).Some? && Block(ks[k]).value <= ks[k].start.value
            && (k == PETERSBURG || Block(ks[k]) == ks[k].start || (k > 0 && Fires(ks[k - 1], head)))
  {
    if k == 2 {
      DAOFlagRow(c, n, head);
    } else if k == 6 {
      ChainIDRow(c, n, head);
    } else if k == PETERSBURG {
      PetersburgRowStart(c, n);
    } else {
      RowOfFork(c, n, k);
    }
  }

  lemma RowOfFork(c: ChainConfig, n: ChainConfig, k: nat)
    requires k < 15 && k != 2 && k != 6 && k != PETERSBURG
    ensures var row := Checks(c, n)[k]; row.start.Some? ==> Block(row) == row.start
  {
  }

  /** A row for a flag that depends on a fork, beside the row of that fork. */
  lemma FlagRow(fork: Check, flag: Check, head: int)
    requires fork == ForkCheck(fork.what, flag.stored, flag.new_)
    requires Fires(flag, head) && flag.start == flag.stored
    ensures Block(flag).Some? && Block(flag).value <= flag.start.value
    ensures Block(flag) == flag.start || Fires(fork, head)
  {
  }

  lemma DAOFlagRow(c: ChainConfig, n: ChainConfig, head: int)
    requires Fires(Checks(c, n)[2], head)
    ensures var ks := Checks(c, n);
            && Block(ks[2]).Some? && Block(ks[2]).value <= ks[2].start.value
            && (Block(ks[2]) == ks[2].start || Fires(ks[1], head))
  {
    FlagRow(Checks(c, n)[1], Checks(c, n)[2], head);
  }

  lemma ChainIDRow(c: ChainConfig, n: ChainConfig, head: int)
    requires Fires(Checks(c, n)[6], head)
    ensures var ks := Checks(c, n);
            && Block(ks[6]).Some? && Block(ks[6]).value <= ks[6].start.value
            && (Block(ks[6]) == ks[6].start || Fires(ks[5], head))
  {
    FlagRow(Checks(c, n)[5], Checks(c, n)[6], head);
  }

  lemma PetersburgRowStart(c: ChainConfig, n: ChainConfig)
    ensures var row := Checks(c, n)[PETERSBURG];
            row.start.Some? ==> Block(row).Some? && Block(row).value <= row.start.value
  {
  }

  lemma ChecksAreOk(c: ChainConfig, n: ChainConfig)
    ensures TableOk(Checks(c, n))
  {
    var ks := Checks(c, n);
    forall k | 0 <= k < 15 && ks[k].start.Some?
      ensures Block(ks[k]).Some? && Block(ks[k]).value <= ks[k].start.value
    {
      RowStart(c, n, k, ks[k].start.value);
    }
    forall head ensures var k := FirstFrom(ks, head, 0); k < 15 && k != PETERSBURG ==> Block(ks[k]) == ks[k].start {
      var k := FirstFrom(ks, head, 0);
      if k < 15 {
        assert k > 0 ==> !Fires(ks[k - 1], head);
        RowStart(c, n, k, head);
      }
    }
  }

  /** The error of a row within the 64-bit range rewinds to just below its earlier block,
      without truncation. */
  lemma RewindValue(k: Check, head: int)
    requires head < UINT64_LIMIT
    requires Block(k).Some? && Block(k).value <= head
    ensures ErrorOf(k).RewindTo() == if Block(k).value <= 0 then 0 else Block(k).value - 1
  {
  }

  predicate TableOvershoots(ks: seq<Check>, height: nat)
    requires |ks| == 15
  {
    var reported, steppedBelow := ks[PETERSBURG].start, Block(ks[PETERSBURG]);
    && reported.Some? && steppedBelow.Some?
    && 1 < reported.value <= height
    && steppedBelow.value < reported.value
    && FirstFrom(ks, reported.value, 0) == PETERSBURG
    && Quiet(ks, if steppedBelow.value < 1 then 1 else steppedBelow.value)
  }

  /** One turn of the loop: the rewind height lies strictly below the head (or is 0); what
      is skipped over is incompatible, unless the pair overshoots. */
  lemma OneRewind(ks: seq<Check>, head: nat)
    requires TableOk(ks) && head < UINT64_LIMIT && !Quiet(ks, head)
    ensures FirstFrom(ks, head, 0) < 15
    ensures var r := ErrorOf(ks[FirstFrom(ks, head, 0)]).RewindTo();
            && (r < head || r == 0)
            && (FirstFrom(ks, head, 0) == PETERSBURG && TableOvershoots(ks, head) ==> r < head && Quiet(ks, r + 1))
            && (FirstFrom(ks, head, 0) != PETERSBURG || !TableOvershoots(ks, head) ==>
                  forall h | r < h <= head :: !Quiet(ks, h))
  {
    var k := FirstFrom(ks, head, 0);
    RewindValue(ks[k], head);
    var r := ErrorOf(ks[k]).RewindTo();
    if k != PETERSBURG {
      forall h | r < h <= head ensures !Quiet(ks, h) {
        assert Fires(ks[k], h);
      }
    } else {
      var reported := ks[PETERSBURG].start.value;
      assert forall j | 0 <= j < k && Fires(ks[j], reported) :: Fires(ks[j], head);
      forall h | r < h <= head && Quiet(ks, h) ensures TableOvershoots(ks, head) {
        QuietBelow(ks, r + 1, h);
        assert !Fires(ks[PETERSBURG], r + 1);
        assert Fires(ks[PETERSBURG], reported);
      }
    }
  }

  /** Until the loop steps over it, an overshooting pair keeps its Petersburg conflict ahead. */
  lemma OvershootStaysAhead(ks: seq<Check>, height: nat, head: nat)
    requires TableOk(ks) && TableOvershoots(ks, height) && head <= height < UINT64_LIMIT
    requires ks[PETERSBURG].start.value <= head
    ensures TableOvershoots(ks, head) && !Quiet(ks, head)
    ensures FirstFrom(ks, head, 0) < PETERSBURG ==>
              ks[PETERSBURG].start.value <= ErrorOf(ks[FirstFrom(ks, head, 0)]).RewindTo()
    ensures FirstFrom(ks, head, 0) <= PETERSBURG
  {
    var k, reported := FirstFrom(ks, head, 0), ks[PETERSBURG].start.value;
    assert Fires(ks[PETERSBURG], head);
    if k < PETERSBURG {
      assert !Fires(ks[k], reported);
      RewindValue(ks[k], head);
    }
  }

  lemma QuietBelow(ks: seq<Check>, low: int, high: int)
    requires low <= high && Quiet(ks, high)
    ensures Quiet(ks, low)
  {
    assert forall k | 0 <= k < |ks| && Fires(ks[k], low) :: Fires(ks[k], high);
  }

  function TableConflict(ks: seq<Check>, head: int): Option<CompatError> {
    var k := FirstFrom(ks, head, 0);
    if k == |ks| then None else Some(ErrorOf(ks[k]))
  }

  /** The loop of `CheckCompatible`, run on the table. */
  function RewindLoop(ks: seq<Check>, bhead: nat, lasterr: Option<CompatError>): Option<CompatError>
    requires TableOk(ks) && bhead < UINT64_LIMIT
    requires lasterr.Some? ==> lasterr.value.RewindTo() == bhead
    decreases bhead, lasterr.None?
  {
    var err := TableConflict(ks, bhead);
    if err.None? || (lasterr.Some? && err.value.RewindTo() == lasterr.value.RewindTo()) then lasterr
    else
      OneRewind(ks, bhead);
      RewindLoop(ks, err.value.RewindTo(), err)
  }

  ghost predicate TableExact(ks: seq<Check>, height: nat, r: nat) {
    && r <= height
    && (r == 0 || Quiet(ks, r))
    && forall h: nat {:trigger Quiet(ks, h)} :: r < h <= height ==> !Quiet(ks, h)
  }

  lemma {:induction false} LoopIsExact(ks: seq<Check>, height: nat, bhead: nat, lasterr: Option<CompatError>)
    requires TableOk(ks) && bhead <= height < UINT64_LIMIT
    requires if lasterr.None? then bhead == height
             else lasterr.value.RewindTo() == bhead && !Quiet(ks, height) && (bhead < height || height == 0)
    requires lasterr.Some? ==> exists h: nat {:trigger TableConflict(ks, h)} ::
                h <= height && TableConflict(ks, h) == lasterr
    requires !TableOvershoots(ks, height) ==> forall h | bhead < h <= height :: !Quiet(ks, h)
    requires TableOvershoots(ks, height) ==>
               ks[PETERSBURG].start.value <= bhead || (bhead < height && Quiet(ks, bhead + 1))
    ensures var err := RewindLoop(ks, bhead, lasterr);
            && (err.None? <==> Quiet(ks, height))
            && (err.Some? ==>
                  var r := err.value.RewindTo();
                  && (TableExact(ks, height, r) <==> !TableOvershoots(ks, height))
                  && (r == 0 || Quiet(ks, r))
                  && (r < height || height == 0)
                  && exists h: nat {:trigger TableConflict(ks, h)} :: h <= height && TableConflict(ks, h) == err)
    decreases bhead, lasterr.None?
  {
    var err := TableConflict(ks, bhead);
    if TableOvershoots(ks, height) && ks[PETERSBURG].start.value <= bhead {
      OvershootStaysAhead(ks, height, bhead);
    } else if TableOvershoots(ks, height) {
      QuietBelow(ks, bhead, bhead + 1);
    }
    if err.Some? {
      OneRewind(ks, bhead);
      if Quiet(ks, height) {
        QuietBelow(ks, bhead, height);
      }
      if !(lasterr.Some? && err.value.RewindTo() == lasterr.value.RewindTo()) {
        LoopIsExact(ks, height, err.value.RewindTo(), err);
      }
    }
  }

  lemma CompatibleIsQuiet(c: ChainConfig, n: ChainConfig, head: int)
    ensures ConflictAt(c, n, Some(head)) == TableConflict(Checks(c, n), head)
    ensures Compatible(c, n, head) <==> Quiet(Checks(c, n), head)
  {
    var k := FirstFiring(c, n, head);
  }

  /** Conflicts never disappear as the chain grows. */
  lemma ConflictsPersist(c: ChainConfig, n: ChainConfig, low: int, high: int)
    requires low <= high && Compatible(c, n, high)
    ensures Compatible(c, n, low)
  {
    CompatibleIsQuiet(c, n, low);
    CompatibleIsQuiet(c, n, high);
    QuietBelow(Checks(c, n), low, high);
  }

  /** The first head at which the Petersburg check reports (its nested test also has to
      fire), and the first head that its rewind steps below. */
  predicate Overshoots(c: ChainConfig, n: ChainConfig, height: nat) {
    var reported := Earliest(c.constantinople, n.petersburg);
    var steppedBelow := Earliest(c.petersburg, n.petersburg);
    && reported.Some? && steppedBelow.Some?
    && 1 < reported.value <= height
    && steppedBelow.value < reported.value
    && ConflictAt(c, n, reported) == Some(CompatError(PetersburgBlock, c.petersburg, n.petersburg))
    && Compatible(c, n, if steppedBelow.value < 1 then 1 else steppedBelow.value)
  }

  lemma PetersburgRow(c: ChainConfig, n: ChainConfig, k: nat)
    requires k < 15
    ensures ErrorOf(Checks(c, n)[k]) == CompatError(PetersburgBlock, c.petersburg, n.petersburg) <==> k == PETERSBURG
  {
  }

  lemma OvershootsTable(c: ChainConfig, n: ChainConfig, height: nat)
    ensures Overshoots(c, n, height) <==> TableOvershoots(Checks(c, n), height)
  {
    var ks := Checks(c, n);
    var reported := Earliest(c.constantinople, n.petersburg);
    var steppedBelow := Earliest(c.petersburg, n.petersburg);
    assert Block(ks[PETERSBURG]) == steppedBelow;
    if reported.Some? && steppedBelow.Some? && steppedBelow.value < reported.value {
      assert ks[PETERSBURG].start == if c.constantinople == n.petersburg then None else reported;
      CompatibleIsQuiet(c, n, if steppedBelow.value < 1 then 1 else steppedBelow.value);
      var j := FirstFiring(c, n, reported.value);
      if j < 15 {
        PetersburgRow(c, n, j);
      }
    }
  }

  /** The table of a pair, as an abstract sequence that agrees with the branch chain. */
  lemma TableOf(c: ChainConfig, n: ChainConfig) returns (ks: seq<Check>)
    ensures ks == Checks(c, n) && TableOk(ks)
    ensures forall h: int {:trigger ConflictAt(c, n, Some(h))} :: ConflictAt(c, n, Some(h)) == TableConflict(ks, h)
  {
    ks := Checks(c, n);
    ChecksAreOk(c, n);
    forall h: int ensures ConflictAt(c, n, Some(h)) == TableConflict(ks, h) {
      CompatibleIsQuiet(c, n, h);
    }
  }

  lemma LoopOnConfigs(c: ChainConfig, n: ChainConfig, height: nat, ks: seq<Check>)
    requires height < UINT64_LIMIT && ks == Checks(c, n) && TableOk(ks)
    ensures var err := RewindLoop(ks, height, None);
            && (err.None? <==> Compatible(c, n, height))
            && (err.Some? ==>
                  var r := err.value.RewindTo();
                  && (IsExactRewind(c, n, height, r) <==> !Overshoots(c, n, height))
                  && (r == 0 || Compatible(c, n, r))
                  && (r < height || height == 0)
                  && exists h: nat :: h <= height && ConflictAt(c, n, Some(h)) == err)
  {
    var err := RewindLoop(ks, height, None);
    LoopIsExact(ks, height, height, None);
    OvershootsTable(c, n, height);
    CompatibleIsQuiet(c, n, height);
    if err.Some? {
      var r := err.value.RewindTo();
      CompatibleIsQuiet(c, n, r);
      ExactOnConfigs(c, n, height, r);
      var h: nat :| h <= height && TableConflict(ks, h) == err;
      CompatibleIsQuiet(c, n, h);
    }
  }

  lemma ExactOnConfigs(c: ChainConfig, n: ChainConfig, height: nat, r: nat)
    ensures IsExactRewind(c, n, height, r) <==> TableExact(Checks(c, n), height, r)
  {
    CompatibleIsQuiet(c, n, r);
    forall h: nat ensures Compatible(c, n, h) <==> Quiet(Checks(c, n), h) {
      CompatibleIsQuiet(c, n, h);
    }
  }

  method CheckCompatible(c: ChainConfig, n: ChainConfig, height: nat) returns (lasterr: Option<CompatError>)
    requires height < UINT64_LIMIT
    ensures lasterr.None? <==> Compatible(c, n, height)
    ensures lasterr.Some? ==> (IsExactRewind(c, n, height, lasterr.value.RewindTo()) <==> !Overshoots(c, n, height))
    ensures lasterr.Some? && PassesForkOrder(c) ==> IsExactRewind(c, n, height, lasterr.value.RewindTo())
    ensures lasterr.Some? ==> lasterr.value.RewindTo() == 0 || Compatible(c, n, lasterr.value.RewindTo())
    ensures lasterr.Some? ==> lasterr.value.RewindTo() < height || height == 0
    ensures lasterr.Some? ==> exists h: nat :: h <= height && ConflictAt(c, n, Some(h)) == lasterr
  {
    ghost var ks := TableOf(c, n);
    var bhead: nat := height;
    lasterr := None;
    while true
      invariant bhead <= height
      invariant lasterr.Some? ==> lasterr.value.RewindTo() == bhead
      invariant RewindLoop(ks, bhead, lasterr) == RewindLoop(ks, height, None)
      decreases bhead, lasterr.None?
    {
      var err := ConflictAt(c, n, Some(bhead));
      if err.None? || (lasterr.Some? && err.value.RewindTo() == lasterr.value.RewindTo()) {
        break;
      }
      OneRewind(ks, bhead);
      lasterr := err;
      bhead := err.value.RewindTo();
    }
    LoopOnConfigs(c, n, height, ks);
    if PassesForkOrder(c) {
      OrderedNeverOvershoots(c, n, height);
    }
  }

  // ---------------------------------------------------------------- fork ordering

  datatype Fork = Fork(name: string, block: BlockNum, optional: bool)

  datatype OrderError =
    | NotEnabled(lastFork: Fork, cur: Fork)
    | EnabledTooEarly(lastFork: Fork, cur: Fork)

  function ForkList(c: ChainConfig): seq<Fork> {
    [ Fork("homesteadBlock", c.homestead, false),
      Fork("daoForkBlock", c.daoFork, true),
      Fork("eip150Block", c.eip150, false),
      Fork("eip155Block", c.eip155, false),
      Fork("eip158Block", c.eip158, false),
      Fork("byzantiumBlock", c.byzantium, false),
      Fork("constantinopleBlock", c.constantinople, false),
      Fork("petersburgBlock", c.petersburg, false),
      Fork("istanbulBlock", c.istanbul, false),
      Fork("muirGlacierBlock", c.muirGlacier, true),
      Fork("berlinBlock", c.berlin, false) ]
  }

  /** A fork may follow another: it is not set after an unset mandatory one, nor earlier
      than one that is set. */
  predicate MayFollow(earlier: Fork, later: Fork) {
    later.block.Some? ==>
      if earlier.block.Some? then earlier.block.value <= later.block.value else earlier.optional
  }

  /** The global meaning of the check: every pair of the list, not only neighbours. */
  predicate InOrder(forks: seq<Fork>) {
    forall i, j | 0 <= i < j < |forks| :: MayFollow(forks[i], forks[j])
  }

  predicate PassesForkOrder(c: ChainConfig) {
    InOrder(ForkList(c))
  }

  /** The error names the first fork that is out of order and one it must not follow. */
  ghost predicate FirstOffence(forks: seq<Fork>, err: OrderError) {
    exists i, j ::
      && 0 <= i < j < |forks|
      && InOrder(forks[..j])
      && !MayFollow(forks[i], forks[j])
      && err == (if forks[i].block.None? then NotEnabled(forks[i], forks[j]) else EnabledTooEarly(forks[i], forks[j]))
  }

  /** The one pass over the list, comparing each fork with `lastFork` only. */
  method CheckForkList(forks: seq<Fork>) returns (err: Option<OrderError>)
    requires forall i | 0 <= i < |forks| :: forks[i].name != ""
    ensures err.None? <==> InOrder(forks)
    ensures err.Some? ==> FirstOffence(forks, err.value)
  {
    var lastFork := Fork("", None, false);
    ghost var last := -1;
    var i := 0;
    while i < |forks|
      invariant -1 <= last < i <= |forks|
      invariant lastFork == if last == -1 then Fork("", None, false) else forks[last]
      invariant forall j | last < j < i :: forks[j].optional && forks[j].block.None?
      invariant last >= 0 ==> !forks[last].optional || forks[last].block.Some?
      invariant forall j, k | 0 <= j < k < i :: MayFollow(forks[j], forks[k])
    {
      var cur := forks[i];
      if lastFork.name != "" {
        if (lastFork.block.None? && cur.block.Some?)
           || (lastFork.block.Some? && cur.block.Some? && lastFork.block.value > cur.block.value) {
          assert !MayFollow(forks[last], forks[i]);
          return Some(if lastFork.block.None? then NotEnabled(lastFork, cur) else EnabledTooEarly(lastFork, cur));
        }
      }
      forall j | 0 <= j < i ensures MayFollow(forks[j], forks[i]) {
        if j < last {
          assert MayFollow(forks[j], forks[last]);
        }
      }
      if !cur.optional || cur.block.Some? {
        lastFork := cur;
        last := i;
      }
      i := i + 1;
    }
    return None;
  }

  method CheckConfigForkOrder(c: ChainConfig) returns (err: Option<OrderError>)
    ensures err.None? <==> PassesForkOrder(c)
    ensures err.Some? ==> FirstOffence(ForkList(c), err.value)
  {
    err := CheckForkList(ForkList(c));
  }

  /** DAO and Muir Glacier may be left unset; no mandatory fork before a set Berlin may. */
  lemma OnlyTwoForksAreOptional(c: ChainConfig)
    requires PassesForkOrder(c)
    ensures PassesForkOrder(c.(daoFork := None)) && PassesForkOrder(c.(muirGlacier := None))
    ensures c.berlin.Some? ==>
              && c.homestead.Some? && c.eip150.Some? && c.eip155.Some? && c.eip158.Some? && c.byzantium.Some?
              && c.constantinople.Some? && c.petersburg.Some? && c.istanbul.Some?
  {
    var fs := ForkList(c);
    if c.berlin.Some? {
      LaterImpliesEarlier(c, c.berlin, 0, 10);
      LaterImpliesEarlier(c, c.berlin, 2, 10);
      LaterImpliesEarlier(c, c.berlin, 3, 10);
      LaterImpliesEarlier(c, c.berlin, 4, 10);
      LaterImpliesEarlier(c, c.berlin, 5, 10);
      LaterImpliesEarlier(c, c.berlin, 6, 10);
      LaterImpliesEarlier(c, c.berlin, 7, 10);
      LaterImpliesEarlier(c, c.berlin, 8, 10);
    }
    UnsetOptional(fs, 1, ForkList(c.(daoFork := None)));
    UnsetOptional(fs, 9, ForkList(c.(muirGlacier := None)));
  }

  lemma UnsetOptional(fs: seq<Fork>, k: nat, gs: seq<Fork>)
    requires InOrder(fs) && k < |fs| == |gs|
    requires gs[k].optional && gs[k].block.None? && forall i | 0 <= i < |fs| && i != k :: gs[i] == fs[i]
    ensures InOrder(gs)
  {
    forall i, j | 0 <= i < j < |gs| ensures MayFollow(gs[i], gs[j]) {
      assert MayFollow(fs[i], fs[j]);
    }
  }

  /** With every fork but those two set, in order, the configuration passes. */
  lemma BerlinWithoutOptionals()
    ensures PassesForkOrder(ChainConfig(Some(1), Some(0), None, false, Some(1), Some(1), Some(1), Some(2), Some(3),
                                        Some(3), Some(4), None, Some(5), None, None, None))
  {
  }

  datatype Rules = Rules(
    chainID: int,
    isHomestead: bool, isEIP150: bool, isEIP155: bool, isEIP158: bool,
    isByzantium: bool, isConstantinople: bool, isPetersburg: bool, isIstanbul: bool,
    isBerlin: bool, isCatalyst: bool)

  function RulesAt(c: ChainConfig, num: BlockNum): Rules {
    Rules(if c.chainID.None? then 0 else c.chainID.value,
          c.IsHomestead(num), c.IsEIP150(num), c.IsEIP155(num), c.IsEIP158(num),
          c.IsByzantium(num), c.IsConstantinople(num), c.IsPetersburg(num), c.IsIstanbul(num),
          c.IsBerlin(num), c.IsCatalyst(num))
  }

  /** Two forks of an ordered list: the later one being active makes a mandatory earlier
      one active. */
  lemma LaterImpliesEarlier(c: ChainConfig, num: BlockNum, i: nat, j: nat)
    requires PassesForkOrder(c) && i < j < 11
    requires !ForkList(c)[i].optional
    ensures IsForked(ForkList(c)[j].block, num) ==> IsForked(ForkList(c)[i].block, num)
  {
    assert MayFollow(ForkList(c)[i], ForkList(c)[j]);
  }

  /** With YOLOv3 unset, the active mandatory forks are a prefix of the list: each rule
      implies the one before it. */
  lemma ActiveForksFormPrefix(c: ChainConfig, num: BlockNum)
    requires PassesForkOrder(c) && c.yoloV3.None?
    ensures var r := RulesAt(c, num);
            && (r.isBerlin ==> r.isIstanbul) && (r.isIstanbul ==> r.isPetersburg)
            && (r.isPetersburg ==> r.isConstantinople) && (r.isConstantinople ==> r.isByzantium)
            && (r.isByzantium ==> r.isEIP158) && (r.isEIP158 ==> r.isEIP155)
            && (r.isEIP155 ==> r.isEIP150) && (r.isEIP150 ==> r.isHomestead)
  {
    LaterImpliesEarlier(c, num, 8, 10);
    LaterImpliesEarlier(c, num, 7, 8);
    LaterImpliesEarlier(c, num, 6, 7);
    LaterImpliesEarlier(c, num, 5, 6);
    LaterImpliesEarlier(c, num, 4, 5);
    LaterImpliesEarlier(c, num, 3, 4);
    LaterImpliesEarlier(c, num, 2, 3);
    LaterImpliesEarlier(c, num, 0, 2);
  }

  /** An ordered stored configuration never overshoots, so its rewind height is exact. */
  lemma OrderedNeverOvershoots(c: ChainConfig, n: ChainConfig, height: nat)
    requires PassesForkOrder(c)
    ensures !Overshoots(c, n, height)
  {
    assert MayFollow(ForkList(c)[6], ForkList(c)[7]);
  }

  const NO_FORKS := ChainConfig(None, None, None, false, None, None, None, None, None, None, None, None, None,
                                None, None, None)

  /** Without the ordering, a compatible height can be skipped: Petersburg at 3 stored before
      Constantinople at 7, moved to 10; heights up to 6 are compatible, the error says 2. */
  lemma UnorderedCanOvershoot()
    ensures var c := NO_FORKS.(constantinople := Some(7), petersburg := Some(3));
            var n := NO_FORKS.(constantinople := Some(7), petersburg := Some(10));
            && Overshoots(c, n, 10) && Compatible(c, n, 6)
            && ConflictAt(c, n, Some(10)) == Some(CompatError(PetersburgBlock, Some(3), Some(10)))
            && CompatError(PetersburgBlock, Some(3), Some(10)).RewindTo() == 2
  {
  }

  // ---------------------------------------------------------------- what compatibility means

  /** A rescheduling of one fork is refused at a head exactly when some block up to that
      head would change sides. */
  lemma IncompatibleMeansDisagreement(s1: BlockNum, s2: BlockNum, head: int)
    ensures IsForkIncompatible(s1, s2, Some(head)) <==>
              exists m: int :: m <= head && IsForked(s1, Some(m)) != IsForked(s2, Some(m))
  {
    if IsForkIncompatible(s1, s2, Some(head)) {
      var m := Earliest(s1, s2).value;
      assert IsForked(s1, Some(m)) != IsForked(s2, Some(m));
    }
  }

  predicate AgreeAt(c: ChainConfig, n: ChainConfig, m: int) {
    var num := Some(m);
    && c.IsHomestead(num) == n.IsHomestead(num)
    && c.IsDAOFork(num) == n.IsDAOFork(num)
    && (c.IsDAOFork(num) ==> c.daoForkSupport == n.daoForkSupport)
    && c.IsEIP150(num) == n.IsEIP150(num)
    && c.IsEIP155(num) == n.IsEIP155(num)
    && c.IsEIP158(num) == n.IsEIP158(num)
    && (c.IsEIP158(num) ==> c.chainID == n.chainID)
    && c.IsByzantium(num) == n.IsByzantium(num)
    && c.IsConstantinople(num) == n.IsConstantinople(num)
    && c.IsIstanbul(num) == n.IsIstanbul(num)
    && c.IsMuirGlacier(num) == n.IsMuirGlacier(num)
    && IsForked(c.berlin, num) == IsForked(n.berlin, num)
    && IsForked(c.yoloV3, num) == IsForked(n.yoloV3, num)
    && c.IsBerlin(num) == n.IsBerlin(num)
    && c.IsEWASM(num) == n.IsEWASM(num)
  }

  /** The first row to report, other than Petersburg's, starts at the earlier of its blocks. */
  lemma CheckStarts(c: ChainConfig, n: ChainConfig, head: int, k: nat)
    requires k == FirstFrom(Checks(c, n), head, 0) < 15 && k != PETERSBURG
    ensures Block(Checks(c, n)[k]) == Checks(c, n)[k].start
  {
    ChecksAreOk(c, n);
  }

  lemma CompatibleAgree(c: ChainConfig, n: ChainConfig, head: int, m: int)
    requires Compatible(c, n, head) && m <= head
    ensures AgreeAt(c, n, m)
  {
    CompatibleIsQuiet(c, n, head);
    EarlyRowsMatch(c, n, head);
    LateRowsMatch(c, n, head);
  }

  lemma EarlyRowDisagrees(c: ChainConfig, n: ChainConfig, m: int, k: nat)
    requires k < 8 && Fires(Checks(c, n)[k], m) && Block(Checks(c, n)[k]) == Some(m)
    ensures !AgreeAt(c, n, m)
  {
    EarlyRowsMatch(c, n, m);
  }

  lemma LateRowDisagrees(c: ChainConfig, n: ChainConfig, m: int, k: nat)
    requires 8 <= k < 15 && k != PETERSBURG && Fires(Checks(c, n)[k], m) && Block(Checks(c, n)[k]) == Some(m)
    ensures !AgreeAt(c, n, m)
  {
    LateRowsMatch(c, n, m);
  }

  lemma ConflictDisagrees(c: ChainConfig, n: ChainConfig, head: int) returns (m: int)
    requires !Compatible(c, n, head) && FirstFrom(Checks(c, n), head, 0) != PETERSBURG
    ensures m <= head && !AgreeAt(c, n, m)
  {
    var ks := Checks(c, n);
    var k := FirstFiring(c, n, head);
    CheckStarts(c, n, head, k);
    m := ks[k].start.value;
    assert Fires(ks[k], m) && Block(ks[k]) == Some(m);
    if k < 8 {
      EarlyRowDisagrees(c, n, m, k);
    } else {
      LateRowDisagrees(c, n, m, k);
    }
  }

  /** Compatibility at a head means that both configurations run the same rules on every
      block up to it, and nothing more than the Petersburg test beside that. */
  lemma CompatibleMeansAgreement(c: ChainConfig, n: ChainConfig, head: int)
    ensures Compatible(c, n, head) <==>
              && (forall m: int :: m <= head ==> AgreeAt(c, n, m))
              && !(&& IsForkIncompatible(c.petersburg, n.petersburg, Some(head))
                   && IsForkIncompatible(c.constantinople, n.petersburg, Some(head)))
  {
    var k := FirstFiring(c, n, head);
    LateRowsMatch(c, n, head);
    if k == 15 {
      forall m: int | m <= head ensures AgreeAt(c, n, m) {
        CompatibleAgree(c, n, head, m);
      }
    } else if k != PETERSBURG {
      var m := ConflictDisagrees(c, n, head);
    }
  }

  /** Petersburg's effective block: unset means "with Constantinople". */
  function EffectivePetersburg(c: ChainConfig): BlockNum {
    if c.petersburg.None? then c.constantinople else c.petersburg
  }

  /** Agreement on Petersburg is not part of compatibility; it holds exactly when the
      effective blocks are themselves compatible. */
  lemma PetersburgAgreement(c: ChainConfig, n: ChainConfig, head: int)
    ensures (forall m: int :: m <= head ==> c.IsPetersburg(Some(m)) == n.IsPetersburg(Some(m))) <==>
              !IsForkIncompatible(EffectivePetersburg(c), EffectivePetersburg(n), Some(head))
  {
    IncompatibleMeansDisagreement(EffectivePetersburg(c), EffectivePetersburg(n), head);
    assert forall m: int :: c.IsPetersburg(Some(m)) == IsForked(EffectivePetersburg(c), Some(m));
    assert forall m: int :: n.IsPetersburg(Some(m)) == IsForked(EffectivePetersburg(n), Some(m));
  }

  /** The allowed exception: Petersburg moved from 9 to Constantinople's block 5 is accepted
      at head 10, yet block 6 changes sides. */
  lemma PetersburgExceptionDisagrees()
    ensures var c := NO_FORKS.(constantinople := Some(5), petersburg := Some(9));
            var n := NO_FORKS.(constantinople := Some(5), petersburg := Some(5));
            Compatible(c, n, 10) && c.IsPetersburg(Some(6)) != n.IsPetersburg(Some(6))
  {
  }

  /** Catalyst is not compared at all: rescheduled at block 3, it is accepted at head 10. */
  lemma CatalystIsNotChecked()
    ensures var n := NO_FORKS.(catalyst := Some(3));
            Compatible(NO_FORKS, n, 10) && NO_FORKS.IsCatalyst(Some(3)) != n.IsCatalyst(Some(3))
  {
  }
}

/** The lockup NFT collection's wrapper: the deployment data cell, the
    collection content cell, the bodies of the deploy, mint and batch-mint
    messages, and the two ways to obtain a collection handle.

    What the wrapper hands to ton-core that this model cannot see is taken
    as a parameter: `encodeOffChain` (encodeOffChainContent), the root
    cell of a non-empty dictionary (`stakingRoot`, `mintRoot`: the HashmapE
    trie and the MintValue serialiser), and `contractAddress`. */
module LockupNftCollection {
  import opened Bits
  import opened Outcomes
  import opened Cells
  import opened CellBuilder
  import Utf8

  /** The most items one batch-mint message may carry. The opcodes of the
      two operations (1 for mint, 2 for batch mint) are written as literals
      where they are stored and checked. */
  const MaxBatchItems: nat := 250

  datatype RoyaltyParams = RoyaltyParams(
    tvlFactor: int,
    tvlBase: int,
    rewardsFactor: int,
    rewardsBase: int,
    royaltyAddress: Address)

  /** The staking parameters are a dictionary value; only its entries matter here. */
  datatype NftCollectionConfig = NftCollectionConfig(
    nextItemIndex: int,
    collectionContent: Cell,
    nftItemCode: Cell,
    royaltyParams: RoyaltyParams,
    stakingParams: map<int, int>,
    withdrawalFactorTon1: int,
    withdrawalFactorJetton: int)

  datatype NftCollectionContent = NftCollectionContent(collectionContent: string, commonContent: string)

  /** The part of sendMintNft's options that goes into the body. */
  datatype MintNftRequest = MintNftRequest(
    queryId: int,
    itemIndex: int,
    itemOwnerAddress: Address,
    itemContent: string,
    amount: int)

  /** One item of a batch mint; only `index` is read by the wrapper itself. */
  datatype CollectionMint = CollectionMint(index: int, amount: int, ownerAddress: Address, content: string)

  datatype StateInit = StateInit(code: Cell, data: Cell)

  /** The contract handle: an address, and the init pair when the handle
      was derived from a configuration. */
  datatype NftCollection = NftCollection(address: Address, init: Option<StateInit>)

  // ---------------------------------------------------------------------
  // Range conditions: when the serialisers succeed

  predicate RoyaltyFits(p: RoyaltyParams)
  {
    && 0 <= p.tvlFactor < Pow2(32)
    && 0 <= p.tvlBase < Pow2(32)
    && 0 <= p.rewardsFactor < Pow2(32)
    && 0 <= p.rewardsBase < Pow2(32)
    && IntFits(p.royaltyAddress.workchain, 8)
  }

  predicate ConfigFits(config: NftCollectionConfig)
  {
    && 0 <= config.nextItemIndex < Pow2(64)
    && RoyaltyFits(config.royaltyParams)
    && 0 <= config.withdrawalFactorTon1 < Pow2(16)
    && 0 <= config.withdrawalFactorJetton < Pow2(16)
  }

  predicate MintFits(req: MintNftRequest)
  {
    && |Utf8.Encode(req.itemContent)| <= 127
    && IntFits(req.itemOwnerAddress.workchain, 8)
    && 0 <= req.queryId < Pow2(64)
    && 0 <= req.itemIndex < Pow2(64)
    && 0 <= req.amount < Pow2(120)
  }

  // ---------------------------------------------------------------------
  // buildNftCollectionContentCell

  /** The content cell: no data bits; a reference to the off-chain content
      of the collection, then one to the common content as a string tail. */
  function ContentCell(data: NftCollectionContent, encodeOffChain: string -> Cell): (r: Cell)
    ensures r.bits == [] && |r.refs| == 2 && r.refs[0] == encodeOffChain(data.collectionContent)
    ensures ReadSnake(r.refs[1]) == Some(Utf8.Encode(data.commonContent))
  {
    var bytes := Utf8.Encode(data.commonContent);
    SnakeRoundTrip(bytes);
    var common := AppendStringTail(Empty, data.commonContent).value;
    Cell([], [encodeOffChain(data.collectionContent), common])
  }

  method BuildNftCollectionContentCell(data: NftCollectionContent, encodeOffChain: string -> Cell)
    returns (r: Cell)
    ensures r == ContentCell(data, encodeOffChain)
  {
    var contentCell := new Builder();
    var collectionContent := encodeOffChain(data.collectionContent);
    var commonContent := new Builder();
    SnakeRoundTrip(Utf8.Encode(data.commonContent));
    var stored := commonContent.StoreStringTail(data.commonContent);
    var common := commonContent.EndCell();
    stored := contentCell.StoreRef(collectionContent);
    stored := contentCell.StoreRef(common);
    r := contentCell.EndCell();
  }

  /** Reads a content cell back: the off-chain cell as it is, and the common
      content decoded from its snake of UTF-8 bytes. */
  function ParseContent(c: Cell): Option<(Cell, string)>
  {
    if c.bits != [] || |c.refs| != 2 then None
    else
      var bytes :- ReadSnake(c.refs[1]);
      var common :- Utf8.Decode(bytes);
      Some((c.refs[0], common))
  }

  lemma ContentRoundTrip(data: NftCollectionContent, encodeOffChain: string -> Cell)
    ensures ParseContent(ContentCell(data, encodeOffChain))
            == Some((encodeOffChain(data.collectionContent), data.commonContent))
  {
    Utf8.DecodeEncode(data.commonContent);
  }

  /** The content cell and everything under it stays within the cell
      limits, as long as the off-chain content cell does. */
  lemma ContentWellFormed(data: NftCollectionContent, encodeOffChain: string -> Cell)
    requires WellFormed(encodeOffChain(data.collectionContent))
    ensures WellFormed(ContentCell(data, encodeOffChain))
  {
    SnakeRoundTrip(Utf8.Encode(data.commonContent));
  }

  // ---------------------------------------------------------------------
  // nftCollectionConfigToCell

  /** The royalty sub-cell: four 32-bit numbers, then the royalty address. */
  function RoyaltyCell(p: RoyaltyParams): (r: Result<Cell>)
    ensures r.Success? <==> RoyaltyFits(p)
    ensures r.Failure? ==> r.error == RangeError
    ensures r.Success? ==> r.value.refs == [] && |r.value.bits| == 128 + 267
  {
    var c4 :- RoyaltyFactors(p);
    AppendAddress(c4, p.royaltyAddress)
  }

  /** The four 32-bit factors of the royalty sub-cell, in source order. */
  function RoyaltyFactors(p: RoyaltyParams): (r: Result<Cell>)
    ensures r.Success? <==> && 0 <= p.tvlFactor < Pow2(32) && 0 <= p.tvlBase < Pow2(32)
                            && 0 <= p.rewardsFactor < Pow2(32) && 0 <= p.rewardsBase < Pow2(32)
    ensures r.Failure? ==> r.error == RangeError
    ensures r.Success? ==> r.value == Cell(UintBits(p.tvlFactor, 32) + UintBits(p.tvlBase, 32)
                                           + UintBits(p.rewardsFactor, 32) + UintBits(p.rewardsBase, 32), [])
  {
    var c1 :- AppendUint(Empty, p.tvlFactor, 32);
    var c2 :- AppendUint(c1, p.tvlBase, 32);
    var c3 :- AppendUint(c2, p.rewardsFactor, 32);
    RightUnit(UintBits(p.tvlFactor, 32));
    AppendUint(c3, p.rewardsBase, 32)
  }

  /** The references a data cell carries: code, content, royalty, and the
      staking dictionary's root when there are staking entries. */
  function ConfigRefs(config: NftCollectionConfig, royalty: Cell, stakingRoot: map<int, int> -> Cell): seq<Cell>
  {
    [config.nftItemCode, config.collectionContent, royalty]
    + (if |config.stakingParams| == 0 then [] else [stakingRoot(config.stakingParams)])
  }

  /** The data cell up to the staking dictionary: the next item index, the
      three references, and the dictionary's presence bit. */
  function ConfigHead(config: NftCollectionConfig, stakingRoot: map<int, int> -> Cell): (r: Result<Cell>)
    ensures r.Success? <==> 0 <= config.nextItemIndex < Pow2(64) && RoyaltyFits(config.royaltyParams)
    ensures r.Failure? ==> r.error == RangeError
    ensures r.Success? ==> |r.value.bits| == 65
    ensures r.Success? ==>
              r.value == Cell(UintBits(config.nextItemIndex, 64) + [|config.stakingParams| > 0],
                              ConfigRefs(config, RoyaltyCell(config.royaltyParams).value, stakingRoot))
  {
    // Only the range checks can fail: these fields never exceed a cell.
    var c0 :- AppendUint(Empty, config.nextItemIndex, 64);
    var c1 := AppendRef(c0, config.nftItemCode).value;
    var c2 := AppendRef(c1, config.collectionContent).value;
    var royalty :- RoyaltyCell(config.royaltyParams);
    var c3 := AppendRef(c2, royalty).value;
    Triple(config.nftItemCode, config.collectionContent, royalty, []);
    RightUnit(UintBits(config.nextItemIndex, 64));
    RightUnit([config.nftItemCode, config.collectionContent, royalty]);
    AppendDict(c3, config.stakingParams, stakingRoot)
  }

  /** The fields after the staking dictionary: two reserved zero bits, the
      two withdrawal factors, and two zero coin amounts. */
  function ConfigTail(head: Cell, withdrawalFactorTon1: int, withdrawalFactorJetton: int): (r: Result<Cell>)
    requires |head.bits| <= 65
    ensures r.Success? <==> 0 <= withdrawalFactorTon1 < Pow2(16) && 0 <= withdrawalFactorJetton < Pow2(16)
    ensures r.Failure? ==> r.error == RangeError
    ensures r.Success? ==>
              r.value == Cell(head.bits + UintBits(0, 2) + UintBits(withdrawalFactorTon1, 16)
                              + UintBits(withdrawalFactorJetton, 16) + CoinsBits(0) + CoinsBits(0),
                              head.refs)
  {
    var c5 := AppendUint(head, 0, 2).value;
    var c6 :- AppendUint(c5, withdrawalFactorTon1, 16);
    var c7 :- AppendUint(c6, withdrawalFactorJetton, 16);
    var c8 := AppendCoins(c7, 0).value;
    AppendCoins(c8, 0)
  }

  /** The deployment data cell, field by field in the order of the wire
      format; it fails, with a range error, exactly when a field is out of
      range. ConfigLayout states what it holds. */
  function ConfigToCell(config: NftCollectionConfig, stakingRoot: map<int, int> -> Cell): (r: Result<Cell>)
    ensures r.Success? <==> ConfigFits(config)
  {
    var head :- ConfigHead(config, stakingRoot);
    ConfigTail(head, config.withdrawalFactorTon1, config.withdrawalFactorJetton)
  }

  /** Building the data cell can only fail with a range error. */
  lemma ConfigToCellError(config: NftCollectionConfig, stakingRoot: map<int, int> -> Cell)
    requires !ConfigFits(config)
    ensures ConfigToCell(config, stakingRoot).error == RangeError
  {
  }

  /** The 107 bits of the data cell: the next item index, the dictionary's
      presence bit, two reserved zero bits, the two withdrawal factors, and
      two zero coin amounts; and its references. */
  lemma ConfigLayout(config: NftCollectionConfig, stakingRoot: map<int, int> -> Cell)
    requires ConfigFits(config)
    ensures ConfigToCell(config, stakingRoot).value.bits
            == UintBits(config.nextItemIndex, 64) + [|config.stakingParams| > 0] + UintBits(0, 2)
               + UintBits(config.withdrawalFactorTon1, 16) + UintBits(config.withdrawalFactorJetton, 16)
               + CoinsBits(0) + CoinsBits(0)
    ensures ConfigToCell(config, stakingRoot).value.refs
            == ConfigRefs(config, RoyaltyCell(config.royaltyParams).value, stakingRoot)
    ensures |ConfigToCell(config, stakingRoot).value.bits| == 107
  {
  }

  /** The bits of the royalty sub-cell, all of them. */
  lemma RoyaltyLayout(p: RoyaltyParams)
    requires RoyaltyFits(p)
    ensures RoyaltyCell(p).value.bits
            == UintBits(p.tvlFactor, 32) + UintBits(p.tvlBase, 32) + UintBits(p.rewardsFactor, 32)
               + UintBits(p.rewardsBase, 32) + AddressBits(p.royaltyAddress)
  {
    var c4 := RoyaltyFactors(p).value;
    assert RoyaltyCell(p) == AppendAddress(c4, p.royaltyAddress);
  }

  /** What a reader of the data cell recovers. */
  datatype ConfigImage = ConfigImage(
    nextItemIndex: nat,
    nftItemCode: Cell,
    collectionContent: Cell,
    royaltyParams: RoyaltyParams,
    stakingRoot: Option<Cell>,
    reserved: nat,
    withdrawalFactorTon1: nat,
    withdrawalFactorJetton: nat,
    firstCoins: nat,
    secondCoins: nat)

  /** The image a configuration should produce: its fields, the dictionary
      root when there are staking entries, and zero in the three fields the
      wrapper always writes as zero. */
  function ImageOf(config: NftCollectionConfig, stakingRoot: map<int, int> -> Cell): ConfigImage
    requires ConfigFits(config)
  {
    ConfigImage(
      config.nextItemIndex, config.nftItemCode, config.collectionContent, config.royaltyParams,
      if |config.stakingParams| == 0 then None else Some(stakingRoot(config.stakingParams)),
      0, config.withdrawalFactorTon1, config.withdrawalFactorJetton, 0, 0)
  }

  function ParseRoyalty(c: Cell): Option<RoyaltyParams>
  {
    var f :- ParseRoyaltyFactors(BeginParse(c));
    var a :- LoadAddress(f.4);
    if !Exhausted(a.1) then None else Some(RoyaltyParams(f.0, f.1, f.2, f.3, a.0))
  }

  /** The four 32-bit royalty factors, and what follows them. */
  function ParseRoyaltyFactors(s: Slice): Option<(nat, nat, nat, nat, Slice)>
  {
    var f1 :- LoadUint(s, 32);
    var f2 :- LoadUint(f1.1, 32);
    var f3 :- LoadUint(f2.1, 32);
    var f4 :- LoadUint(f3.1, 32);
    Some((f1.0, f2.0, f3.0, f4.0, f4.1))
  }

  /** Reads the data cell in the order the collection contract does. */
  function ParseConfig(c: Cell): Option<ConfigImage>
  {
    var head :- ParseConfigHead(BeginParse(c));
    var royalty :- ParseRoyalty(head.3);
    var staking :- LoadMaybeRef(head.4);
    var tail :- ParseConfigTail(staking.1);
    Some(ConfigImage(head.0, head.1, head.2, royalty, staking.0, tail.0, tail.1, tail.2, tail.3, tail.4))
  }

  /** The next item index and the three references, and what follows them. */
  function ParseConfigHead(s: Slice): Option<(nat, Cell, Cell, Cell, Slice)>
  {
    var next :- LoadUint(s, 64);
    var code :- LoadRef(next.1);
    var content :- LoadRef(code.1);
    var royalty :- LoadRef(content.1);
    Some((next.0, code.0, content.0, royalty.0, royalty.1))
  }

  /** The fields after the staking dictionary, which must end the cell. */
  function ParseConfigTail(s: Slice): Option<(nat, nat, nat, nat, nat)>
  {
    var reserved :- LoadUint(s, 2);
    var wTon :- LoadUint(reserved.1, 16);
    var wJetton :- LoadUint(wTon.1, 16);
    var coins1 :- LoadCoins(wJetton.1);
    var coins2 :- LoadCoins(coins1.1);
    if !Exhausted(coins2.1) then None else Some((reserved.0, wTon.0, wJetton.0, coins1.0, coins2.0))
  }

  lemma RoyaltyRoundTrip(p: RoyaltyParams)
    requires RoyaltyFits(p)
    ensures ParseRoyalty(RoyaltyCell(p).value) == Some(p)
  {
    RoyaltyLayout(p);
    ParseRoyaltyOf(p.tvlFactor, p.tvlBase, p.rewardsFactor, p.rewardsBase, p.royaltyAddress);
  }

  /** Reading a royalty cell laid out field by field gives the fields back. */
  lemma ParseRoyaltyOf(f1: nat, f2: nat, f3: nat, f4: nat, address: Address)
    requires f1 < Pow2(32) && f2 < Pow2(32) && f3 < Pow2(32) && f4 < Pow2(32)
    requires IntFits(address.workchain, 8)
    ensures ParseRoyalty(Cell(UintBits(f1, 32) + UintBits(f2, 32) + UintBits(f3, 32) + UintBits(f4, 32)
                              + AddressBits(address), []))
            == Some(RoyaltyParams(f1, f2, f3, f4, address))
  {
    var a := AddressBits(address);
    Assoc5(UintBits(f1, 32), UintBits(f2, 32), UintBits(f3, 32), UintBits(f4, 32), a);
    ParseRoyaltyFactorsOf(f1, f2, f3, f4, a, []);
    RightUnit(a);
    LoadAddressOf(address, [], []);
  }

  lemma ParseRoyaltyFactorsOf(f1: nat, f2: nat, f3: nat, f4: nat, rest: seq<bool>, refs: seq<Cell>)
    requires f1 < Pow2(32) && f2 < Pow2(32) && f3 < Pow2(32) && f4 < Pow2(32)
    ensures ParseRoyaltyFactors(Slice(UintBits(f1, 32) + (UintBits(f2, 32) + (UintBits(f3, 32) + (UintBits(f4, 32) + rest))), refs))
            == Some((f1, f2, f3, f4, Slice(rest, refs)))
  {
    var b4 := UintBits(f4, 32) + rest;
    var b3 := UintBits(f3, 32) + b4;
    var b2 := UintBits(f2, 32) + b3;
    LoadUintOf(f1, 32, b2, refs);
    LoadUintOf(f2, 32, b3, refs);
    LoadUintOf(f3, 32, b4, refs);
    LoadUintOf(f4, 32, rest, refs);
  }

  lemma ParseConfigHeadOf(next: nat, code: Cell, content: Cell, royalty: Cell, rest: seq<bool>, refs: seq<Cell>)
    requires next < Pow2(64)
    ensures ParseConfigHead(Slice(UintBits(next, 64) + rest, [code, content, royalty] + refs))
            == Some((next, code, content, royalty, Slice(rest, refs)))
  {
    Triple(code, content, royalty, refs);
    LoadUintOf(next, 64, rest, [code] + ([content] + ([royalty] + refs)));
    LoadRefOf(code, rest, [content] + ([royalty] + refs));
    LoadRefOf(content, rest, [royalty] + refs);
    LoadRefOf(royalty, rest, refs);
  }

  /** A data cell whose head, royalty cell and tail read back, with the
      staking presence bit (and root) between head and tail, reads back as
      the image of those fields. */
  lemma ParseConfigOf(
    c: Cell, next: nat, code: Cell, content: Cell, royaltyCell: Cell, royalty: RoyaltyParams,
    present: bool, root: Cell, rest: seq<bool>, tail: (nat, nat, nat, nat, nat))
    requires ParseConfigHead(BeginParse(c))
             == Some((next, code, content, royaltyCell, Slice([present] + rest, if present then [root] else [])))
    requires ParseRoyalty(royaltyCell) == Some(royalty)
    requires ParseConfigTail(Slice(rest, [])) == Some(tail)
    ensures ParseConfig(c)
            == Some(ConfigImage(next, code, content, royalty, if present then Some(root) else None,
                                tail.0, tail.1, tail.2, tail.3, tail.4))
  {
    RightUnit([root]);
    LoadMaybeRefOf(present, root, rest, []);
  }

  lemma ParseConfigTailOf(wTon: nat, wJetton: nat)
    requires wTon < Pow2(16) && wJetton < Pow2(16)
    ensures ParseConfigTail(Slice(UintBits(0, 2) + (UintBits(wTon, 16) + (UintBits(wJetton, 16)
                                  + (CoinsBits(0) + CoinsBits(0)))), []))
            == Some((0, wTon, wJetton, 0, 0))
  {
    var zero := CoinsBits(0);
    var t4 := zero + zero;
    var t3 := UintBits(wJetton, 16) + t4;
    var t2 := UintBits(wTon, 16) + t3;
    RightUnit(zero);
    LoadUintOf(0, 2, t2, []);
    LoadUintOf(wTon, 16, t3, []);
    LoadUintOf(wJetton, 16, t4, []);
    LoadCoinsOf(0, zero, []);
    LoadCoinsOf(0, [], []);
  }

  /** The contract's reading of the data cell gives back every field of the
      configuration, in order, and nothing is left over. */
  lemma ConfigRoundTrip(config: NftCollectionConfig, stakingRoot: map<int, int> -> Cell)
    requires ConfigFits(config)
    ensures ParseConfig(ConfigToCell(config, stakingRoot).value) == Some(ImageOf(config, stakingRoot))
  {
    var cell := ConfigToCell(config, stakingRoot).value;
    var royaltyCell := RoyaltyCell(config.royaltyParams).value;
    var present := |config.stakingParams| > 0;
    var root := stakingRoot(config.stakingParams);
    var dictRefs := if present then [root] else [];
    var wTon := config.withdrawalFactorTon1;
    var wJetton := config.withdrawalFactorJetton;
    var zero := CoinsBits(0);
    var t1 := UintBits(0, 2) + (UintBits(wTon, 16) + (UintBits(wJetton, 16) + (zero + zero)));
    ConfigLayout(config, stakingRoot);
    Assoc7(UintBits(config.nextItemIndex, 64), [present], UintBits(0, 2), UintBits(wTon, 16),
           UintBits(wJetton, 16), zero, zero);
    ParseConfigHeadOf(config.nextItemIndex, config.nftItemCode, config.collectionContent, royaltyCell,
                      [present] + t1, dictRefs);
    RoyaltyRoundTrip(config.royaltyParams);
    ParseConfigTailOf(wTon, wJetton);
    ParseConfigOf(cell, config.nextItemIndex, config.nftItemCode, config.collectionContent, royaltyCell,
                  config.royaltyParams, present, root, t1, (0, wTon, wJetton, 0, 0));
  }

  /** The data cell stays within the cell limits (its own 107 bits and at
      most four references), as do all cells below it, when the cells it is
      given do. */
  lemma ConfigWellFormed(config: NftCollectionConfig, stakingRoot: map<int, int> -> Cell)
    requires ConfigFits(config)
    requires WellFormed(config.nftItemCode) && WellFormed(config.collectionContent)
    requires |config.stakingParams| > 0 ==> WellFormed(stakingRoot(config.stakingParams))
    ensures WellFormed(ConfigToCell(config, stakingRoot).value)
  {
    ConfigLayout(config, stakingRoot);
    var royalty := RoyaltyCell(config.royaltyParams).value;
    assert WellFormed(royalty);
    DataCellWellFormed(ConfigToCell(config, stakingRoot).value, config.nftItemCode, config.collectionContent,
                       royalty, |config.stakingParams| > 0, stakingRoot(config.stakingParams));
  }

  /** A cell of at most 1023 bits whose references are the three given cells
      and (when present) a root is well formed when each of those is. */
  lemma DataCellWellFormed(c: Cell, code: Cell, content: Cell, royalty: Cell, present: bool, root: Cell)
    requires |c.bits| <= MaxBits
    requires c.refs == [code, content, royalty] + (if present then [root] else [])
    requires WellFormed(code) && WellFormed(content) && WellFormed(royalty)
    requires present ==> WellFormed(root)
    ensures WellFormed(c)
  {
    forall i | 0 <= i < |c.refs|
      ensures WellFormed(c.refs[i])
    {
      if i == 0 {
        assert c.refs[i] == code;
      } else if i == 1 {
        assert c.refs[i] == content;
      } else if i == 2 {
        assert c.refs[i] == royalty;
      } else {
        assert c.refs[i] == root;
      }
    }
  }

  /** Two configurations that differ only in nextItemIndex give data cells
      that differ only in the first 64 bits. */
  lemma NextItemIndexOnlyInFirst64Bits(
    c1: NftCollectionConfig, c2: NftCollectionConfig, stakingRoot: map<int, int> -> Cell)
    requires ConfigFits(c1) && ConfigFits(c2)
    requires c2 == c1.(nextItemIndex := c2.nextItemIndex)
    ensures ConfigToCell(c1, stakingRoot).value.refs == ConfigToCell(c2, stakingRoot).value.refs
    ensures ConfigToCell(c1, stakingRoot).value.bits[64..] == ConfigToCell(c2, stakingRoot).value.bits[64..]
  {
    ConfigLayout(c1, stakingRoot);
    ConfigLayout(c2, stakingRoot);
    var zero := CoinsBits(0);
    var tail := [|c1.stakingParams| > 0] + (UintBits(0, 2) + (UintBits(c1.withdrawalFactorTon1, 16)
                + (UintBits(c1.withdrawalFactorJetton, 16) + (zero + zero))));
    Assoc7(UintBits(c1.nextItemIndex, 64), [|c1.stakingParams| > 0], UintBits(0, 2),
           UintBits(c1.withdrawalFactorTon1, 16), UintBits(c1.withdrawalFactorJetton, 16), zero, zero);
    Assoc7(UintBits(c2.nextItemIndex, 64), [|c1.stakingParams| > 0], UintBits(0, 2),
           UintBits(c1.withdrawalFactorTon1, 16), UintBits(c1.withdrawalFactorJetton, 16), zero, zero);
    DropPrefix(UintBits(c1.nextItemIndex, 64), tail);
    DropPrefix(UintBits(c2.nextItemIndex, 64), tail);
  }

  // ---------------------------------------------------------------------
  // NftCollection.createFromAddress / createFromConfig

  function CreateFromAddress(address: Address): (r: NftCollection)
    ensures r.address == address && r.init == None
  {
    NftCollection(address, None)
  }

  /** Whenever the data cell can be built, the handle carries (code, data)
      as its init and the address derived from the workchain and that pair. */
  function CreateFromConfig(
    config: NftCollectionConfig,
    code: Cell,
    stakingRoot: map<int, int> -> Cell,
    contractAddress: (int, StateInit) -> Address,
    workchain: int := 0): (r: Result<NftCollection>)
    ensures r.Success? <==> ConfigFits(config)
    ensures r.Success? ==>
              && r.value.init == Some(StateInit(code, ConfigToCell(config, stakingRoot).value))
              && r.value.address == contractAddress(workchain, r.value.init.value)
  {
    var data :- ConfigToCell(config, stakingRoot);
    var init := StateInit(code, data);
    Success(NftCollection(contractAddress(workchain, init), Some(init)))
  }

  ghost predicate Injective(contractAddress: (int, StateInit) -> Address)
  {
    forall w1, i1, w2, i2 :: contractAddress(w1, i1) == contractAddress(w2, i2) ==> w1 == w2 && i1 == i2
  }

  /** With an address derivation that is collision-free (as the hash of the
      init pair is taken to be), two configurations that a reader of the data
      cell can tell apart deploy to different addresses. */
  lemma DistinctConfigsDistinctAddresses(
    c1: NftCollectionConfig, c2: NftCollectionConfig, code: Cell,
    stakingRoot: map<int, int> -> Cell, contractAddress: (int, StateInit) -> Address, workchain: int)
    requires Injective(contractAddress)
    requires ConfigFits(c1) && ConfigFits(c2)
    requires ImageOf(c1, stakingRoot) != ImageOf(c2, stakingRoot)
    ensures CreateFromConfig(c1, code, stakingRoot, contractAddress, workchain).value.address
            != CreateFromConfig(c2, code, stakingRoot, contractAddress, workchain).value.address
  {
    ConfigRoundTrip(c1, stakingRoot);
    ConfigRoundTrip(c2, stakingRoot);
  }

  // ---------------------------------------------------------------------
  // sendDeploy

  /** The deploy message carries an empty body: no bits and no references. */
  method SendDeployBody() returns (body: Cell)
    ensures body.bits == [] && body.refs == []
  {
    var b := new Builder();
    body := b.EndCell();
  }

  // ---------------------------------------------------------------------
  // sendMintNft

  /** The item message: the owner's address, and a reference to a cell that
      holds the content's UTF-8 bytes as they are (storeBuffer, which does
      not spill into a reference: more than 127 bytes do not fit). */
  function MintNftMessage(owner: Address, content: string): (r: Result<Cell>)
    ensures r.Success? <==> |Utf8.Encode(content)| <= 127 && IntFits(owner.workchain, 8)
    ensures r.Failure? ==> r.error == if |Utf8.Encode(content)| > 127 then CapacityError else RangeError
    ensures r.Success? ==> r.value == Cell(AddressBits(owner), [Cell(BytesBits(Utf8.Encode(content)), [])])
  {
    var nftContent :- AppendBytes(Empty, Utf8.Encode(content));
    var nftMessage :- AppendAddress(Empty, owner);
    RightUnit(BytesBits(Utf8.Encode(content)));
    RightUnit(AddressBits(owner));
    AppendRef(nftMessage, nftContent)
  }

  /** The fields of the mint-one body: opcode 1, query id, item index, the
      forwarded amount, and a reference to the item message. Only the range
      checks can fail. */
  function MintNftFields(queryId: int, itemIndex: int, amount: int, message: Cell): (r: Result<Cell>)
    ensures r.Success? <==> 0 <= queryId < Pow2(64) && 0 <= itemIndex < Pow2(64) && 0 <= amount < Pow2(120)
    ensures r.Failure? ==> r.error == RangeError
  {
    // The opcode and the reference cannot fail on a builder this empty.
    var b1 := AppendUint(Empty, 1, 32).value;
    var b2 :- AppendUint(b1, queryId, 64);
    var b3 :- AppendUint(b2, itemIndex, 64);
    CoinsLengthFits(if amount < 0 then 0 else amount);
    var b4 :- AppendCoins(b3, amount);
    AppendRef(b4, message)
  }

  /** The bits and the one reference of the mint-one body. */
  lemma MintNftFieldsLayout(queryId: nat, itemIndex: nat, amount: nat, message: Cell)
    requires queryId < Pow2(64) && itemIndex < Pow2(64) && amount < Pow2(120)
    ensures MintNftFields(queryId, itemIndex, amount, message).value
            == Cell(UintBits(1, 32) + UintBits(queryId, 64) + UintBits(itemIndex, 64) + CoinsBits(amount),
                    [message])
  {
    CoinsLengthFits(amount);
    RightUnit(UintBits(1, 32));
    RightUnit([message]);
    var b1 := AppendUint(Empty, 1, 32).value;
    var b3 := AppendUint(AppendUint(b1, queryId, 64).value, itemIndex, 64).value;
    assert b3 == Cell(UintBits(1, 32) + UintBits(queryId, 64) + UintBits(itemIndex, 64), []);
    assert MintNftFields(queryId, itemIndex, amount, message) == AppendRef(AppendCoins(b3, amount).value, message);
  }

  /** The mint-one body. The item message is built first, so its content
      check comes before any range check of the body's own fields. */
  function MintNftBody(req: MintNftRequest): (r: Result<Cell>)
    ensures r.Success? <==> MintFits(req)
    ensures MintNftMessage(req.itemOwnerAddress, req.itemContent).Success? ==>
              r == MintNftFields(req.queryId, req.itemIndex, req.amount,
                                 MintNftMessage(req.itemOwnerAddress, req.itemContent).value)
  {
    var message :- MintNftMessage(req.itemOwnerAddress, req.itemContent);
    MintNftFields(req.queryId, req.itemIndex, req.amount, message)
  }

  /** A mint-one body fails with a capacity error exactly when the content
      is longer than 127 bytes; every other failure is a range error. */
  lemma MintNftBodyError(req: MintNftRequest)
    requires !MintFits(req)
    ensures MintNftBody(req).error == if |Utf8.Encode(req.itemContent)| > 127 then CapacityError else RangeError
  {
    if |Utf8.Encode(req.itemContent)| <= 127 && IntFits(req.itemOwnerAddress.workchain, 8) {
      var message := MintNftMessage(req.itemOwnerAddress, req.itemContent).value;
      assert MintNftBody(req) == MintNftFields(req.queryId, req.itemIndex, req.amount, message);
    }
  }

  method SendMintNftBody(req: MintNftRequest) returns (body: Result<Cell>)
    ensures body == MintNftBody(req)
  {
    var nftContent := new Builder();
    :- nftContent.StoreBuffer(Utf8.Encode(req.itemContent));
    var nftMessage := new Builder();
    :- nftMessage.StoreAddress(req.itemOwnerAddress);
    var content := nftContent.EndCell();
    // Steps left unchecked cannot fail on a builder this empty.
    var stored := nftMessage.StoreRef(content);
    var message := nftMessage.EndCell();
    RightUnit(BytesBits(Utf8.Encode(req.itemContent)));
    RightUnit(AddressBits(req.itemOwnerAddress));
    var b := new Builder();
    stored := b.StoreUint(1, 32);
    :- b.StoreUint(req.queryId, 64);
    :- b.StoreUint(req.itemIndex, 64);
    :- b.StoreCoins(req.amount);
    stored := b.StoreRef(message);
    var cell := b.EndCell();
    RightUnit(UintBits(1, 32));
    body := Success(cell);
  }

  /** The collection contract's reading of a mint-one body. */
  function ParseMintNft(c: Cell): Option<MintNftRequest>
  {
    var fields :- ParseMintNftFields(BeginParse(c));
    var message :- LoadRef(fields.4);
    if fields.0 != 1 || !Exhausted(message.1) then None
    else
      var item :- ParseMintNftMessage(message.0);
      Some(MintNftRequest(fields.1, fields.2, item.0, item.1, fields.3))
  }

  /** Opcode, query id, item index and amount, and what follows them. */
  function ParseMintNftFields(s: Slice): Option<(nat, nat, nat, nat, Slice)>
  {
    var op :- LoadUint(s, 32);
    var query :- LoadUint(op.1, 64);
    var index :- LoadUint(query.1, 64);
    var amount :- LoadCoins(index.1);
    Some((op.0, query.0, index.0, amount.0, amount.1))
  }

  /** The item's reading of its message: the owner, and the content as text. */
  function ParseMintNftMessage(c: Cell): Option<(Address, string)>
  {
    var owner :- LoadAddress(BeginParse(c));
    var content :- LoadRef(owner.1);
    if !Exhausted(content.1) || content.0.refs != [] || |content.0.bits| % 8 != 0 then None
    else
      var text :- Utf8.Decode(BitsToBytes(content.0.bits));
      Some((owner.0, text))
  }

  lemma MintNftMessageRoundTrip(owner: Address, content: string)
    requires |Utf8.Encode(content)| <= 127 && IntFits(owner.workchain, 8)
    ensures ParseMintNftMessage(MintNftMessage(owner, content).value) == Some((owner, content))
  {
    var bytes := Utf8.Encode(content);
    var contentCell := Cell(BytesBits(bytes), []);
    RightUnit(AddressBits(owner));
    RightUnit([contentCell]);
    LoadAddressOf(owner, [], [contentCell]);
    BytesRoundTrip(bytes);
    Utf8.DecodeEncode(content);
    ParseMintNftMessageOf(MintNftMessage(owner, content).value, owner, contentCell, content);
  }

  /** A message whose address reads back, followed by one reference to a
      flat cell of whole bytes that decode as UTF-8, reads back as the
      owner and the text. */
  lemma ParseMintNftMessageOf(c: Cell, owner: Address, contentCell: Cell, text: string)
    requires LoadAddress(BeginParse(c)) == Some((owner, Slice([], [contentCell])))
    requires contentCell.refs == [] && |contentCell.bits| % 8 == 0
    requires Utf8.Decode(BitsToBytes(contentCell.bits)) == Some(text)
    ensures ParseMintNftMessage(c) == Some((owner, text))
  {
    RightUnit([contentCell]);
    LoadRefOf(contentCell, [], []);
  }

  /** Reading the body back gives the request it was built from. */
  lemma MintNftRoundTrip(req: MintNftRequest)
    requires MintFits(req)
    ensures ParseMintNft(MintNftBody(req).value) == Some(req)
  {
    var message := MintNftMessage(req.itemOwnerAddress, req.itemContent).value;
    MintNftMessageRoundTrip(req.itemOwnerAddress, req.itemContent);
    MintNftFieldsLayout(req.queryId, req.itemIndex, req.amount, message);
    ParseMintNftFieldsOf(1, req.queryId, req.itemIndex, req.amount, [message]);
    ParseMintNftOf(MintNftBody(req).value, 1, req.queryId, req.itemIndex, req.amount, message,
                   req.itemOwnerAddress, req.itemContent);
  }

  /** A body whose fields read back, followed by one message reference the
      item can read, gives its request exactly when the opcode is the mint
      opcode 1. */
  lemma ParseMintNftOf(
    c: Cell, op: nat, queryId: nat, itemIndex: nat, amount: nat, message: Cell, owner: Address, text: string)
    requires ParseMintNftFields(BeginParse(c)) == Some((op, queryId, itemIndex, amount, Slice([], [message])))
    requires ParseMintNftMessage(message) == Some((owner, text))
    ensures ParseMintNft(c) == if op == 1 then Some(MintNftRequest(queryId, itemIndex, owner, text, amount)) else None
  {
    RightUnit([message]);
    LoadRefOf(message, [], []);
  }

  lemma ParseMintNftFieldsOf(op: nat, queryId: nat, itemIndex: nat, amount: nat, refs: seq<Cell>)
    requires op < Pow2(32) && queryId < Pow2(64) && itemIndex < Pow2(64) && amount < Pow2(120)
    ensures ParseMintNftFields(Slice(UintBits(op, 32) + UintBits(queryId, 64) + UintBits(itemIndex, 64)
                                     + CoinsBits(amount), refs))
            == Some((op, queryId, itemIndex, amount, Slice([], refs)))
  {
    var t3 := CoinsBits(amount);
    var t2 := UintBits(itemIndex, 64) + t3;
    var t1 := UintBits(queryId, 64) + t2;
    Assoc4(UintBits(op, 32), UintBits(queryId, 64), UintBits(itemIndex, 64), t3);
    RightUnit(t3);
    LoadUintOf(op, 32, t1, refs);
    LoadUintOf(queryId, 64, t2, refs);
    LoadUintOf(itemIndex, 64, t3, refs);
    LoadCoinsOf(amount, [], refs);
  }

  // ---------------------------------------------------------------------
  // sendBatchMint

  /** The dictionary the batch loop builds: items in list order, keyed by
      their index, a later item replacing an earlier one with the same
      index; an index that is not a safe integer fails the `set`. */
  function BatchEntries(nfts: seq<CollectionMint>): (r: Result<map<int, CollectionMint>>)
    ensures r.Success? <==> forall i :: 0 <= i < |nfts| ==> SafeInteger(nfts[i].index)
    ensures r.Failure? ==> r.error == UnsafeKey
    decreases |nfts|
  {
    if |nfts| == 0 then Success(map[])
    else
      var init := nfts[..|nfts| - 1];
      var last := nfts[|nfts| - 1];
      assert forall i :: 0 <= i < |init| ==> init[i] == nfts[i];
      var m :- BatchEntries(init);
      if SafeInteger(last.index) then Success(m[last.index := last]) else Failure(UnsafeKey)
  }

  /** The keys are exactly the items' indices. */
  lemma {:induction false} BatchEntriesKeys(nfts: seq<CollectionMint>)
    requires BatchEntries(nfts).Success?
    ensures forall k :: k in BatchEntries(nfts).value <==> exists i :: 0 <= i < |nfts| && nfts[i].index == k
    decreases |nfts|
  {
    if |nfts| > 0 {
      var init := nfts[..|nfts| - 1];
      var last := nfts[|nfts| - 1];
      BatchEntriesKeys(init);
      forall k | k in BatchEntries(nfts).value
        ensures exists i :: 0 <= i < |nfts| && nfts[i].index == k
      {
        if k != last.index {
          var i :| 0 <= i < |init| && init[i].index == k;
          assert nfts[i] == init[i];
        } else {
          assert nfts[|nfts| - 1].index == k;
        }
      }
      forall k | exists i :: 0 <= i < |nfts| && nfts[i].index == k
        ensures k in BatchEntries(nfts).value
      {
        var i :| 0 <= i < |nfts| && nfts[i].index == k;
        if i < |nfts| - 1 {
          assert init[i] == nfts[i];
        }
      }
    }
  }

  /** An item whose index no later item repeats is the one the dictionary
      holds for that index: later items overwrite earlier ones. */
  lemma {:induction false} BatchEntriesLastWins(nfts: seq<CollectionMint>, i: nat)
    requires BatchEntries(nfts).Success?
    requires i < |nfts| && forall j :: i < j < |nfts| ==> nfts[j].index != nfts[i].index
    ensures nfts[i].index in BatchEntries(nfts).value && BatchEntries(nfts).value[nfts[i].index] == nfts[i]
    decreases |nfts|
  {
    var init := nfts[..|nfts| - 1];
    if i < |nfts| - 1 {
      assert init[i] == nfts[i];
      forall j | i < j < |init|
        ensures init[j].index != init[i].index
      {
        assert init[j] == nfts[j];
      }
      BatchEntriesLastWins(init, i);
    }
  }

  /** There are never more entries than items, and exactly as many when the
      indices are pairwise distinct. */
  lemma {:induction false} BatchEntriesCount(nfts: seq<CollectionMint>)
    requires BatchEntries(nfts).Success?
    ensures |BatchEntries(nfts).value| <= |nfts|
    ensures (forall i, j :: 0 <= i < j < |nfts| ==> nfts[i].index != nfts[j].index)
            ==> |BatchEntries(nfts).value| == |nfts|
    decreases |nfts|
  {
    if |nfts| > 0 {
      var init := nfts[..|nfts| - 1];
      var last := nfts[|nfts| - 1];
      BatchEntriesCount(init);
      if (forall i, j :: 0 <= i < j < |nfts| ==> nfts[i].index != nfts[j].index) {
        BatchEntriesKeys(init);
        forall i | 0 <= i < |init|
          ensures init[i].index != last.index
        {
          assert init[i] == nfts[i];
        }
        forall i, j | 0 <= i < j < |init|
          ensures init[i].index != init[j].index
        {
          assert init[i] == nfts[i] && init[j] == nfts[j];
        }
      }
    }
  }

  /** The dictionary the loop builds has 64-bit keys exactly when no index
      is negative: a safe integer is always below 2^64. */
  lemma BatchEntriesKeysFit(nfts: seq<CollectionMint>)
    requires BatchEntries(nfts).Success?
    ensures KeysFit(BatchEntries(nfts).value, 64) <==> forall i :: 0 <= i < |nfts| ==> 0 <= nfts[i].index
  {
    BatchEntriesKeys(nfts);
    if forall i :: 0 <= i < |nfts| ==> 0 <= nfts[i].index {
      forall k | k in BatchEntries(nfts).value
        ensures 0 <= k < Pow2(64)
      {
        var i :| 0 <= i < |nfts| && nfts[i].index == k;
        SafeIntegerFits64(k);
      }
    } else {
      var i :| 0 <= i < |nfts| && nfts[i].index < 0;
      assert nfts[i].index in BatchEntries(nfts).value;
    }
  }

  /** The fields of the batch-mint body: opcode 2, the query id, and the
      dictionary, whose 64-bit keys are checked as it is stored. */
  function BatchMintFields(queryId: int, entries: map<int, CollectionMint>, mintRoot: map<int, CollectionMint> -> Cell)
    : (r: Result<Cell>)
    ensures r.Success? <==> 0 <= queryId < Pow2(64) && KeysFit(entries, 64)
    ensures r.Failure? ==> r.error == RangeError
  {
    // The opcode and the dictionary's presence bit cannot fail on a builder this empty.
    var b1 := AppendUint(Empty, 2, 32).value;
    var b2 :- AppendUint(b1, queryId, 64);
    AppendUintDict(b2, 64, entries, mintRoot)
  }

  /** The bits and references of the batch-mint body: the dictionary's
      presence bit follows the two numbers, and its root is the one
      reference when there are entries. */
  lemma BatchMintFieldsLayout(queryId: nat, entries: map<int, CollectionMint>, mintRoot: map<int, CollectionMint> -> Cell)
    requires queryId < Pow2(64) && KeysFit(entries, 64)
    ensures BatchMintFields(queryId, entries, mintRoot).value
            == Cell(UintBits(2, 32) + UintBits(queryId, 64) + [|entries| > 0],
                    if |entries| == 0 then [] else [mintRoot(entries)])
  {
    RightUnit(UintBits(2, 32));
    RightUnit([mintRoot(entries)]);
  }

  /** The batch-mint body: more than 250 items fails before anything is
      built; then the loop's `set`s, which reject unsafe indices; then the
      fields, where the query id and the 64-bit keys are range checked. */
  function BatchMintBody(queryId: int, nfts: seq<CollectionMint>, mintRoot: map<int, CollectionMint> -> Cell)
    : (r: Result<Cell>)
    ensures |nfts| > MaxBatchItems ==> r == Failure(LimitExceeded)
    ensures r.Success? <==> && |nfts| <= MaxBatchItems && BatchEntries(nfts).Success?
                            && BatchMintFields(queryId, BatchEntries(nfts).value, mintRoot).Success?
    ensures |nfts| <= MaxBatchItems && BatchEntries(nfts).Failure? ==> r == Failure(UnsafeKey)
    ensures r.Failure? && |nfts| <= MaxBatchItems && BatchEntries(nfts).Success? ==> r.error == RangeError
    ensures r.Success? ==> r.value == BatchMintFields(queryId, BatchEntries(nfts).value, mintRoot).value
  {
    if |nfts| > MaxBatchItems then Failure(LimitExceeded)
    else
      var entries :- BatchEntries(nfts);
      BatchMintFields(queryId, entries, mintRoot)
  }

  /** When a batch mint succeeds: at most 250 items, a 64-bit query id, and
      every index a non-negative safe integer. */
  lemma BatchMintBodySucceeds(queryId: int, nfts: seq<CollectionMint>, mintRoot: map<int, CollectionMint> -> Cell)
    ensures BatchMintBody(queryId, nfts, mintRoot).Success?
            <==> && |nfts| <= MaxBatchItems && 0 <= queryId < Pow2(64)
                 && forall i :: 0 <= i < |nfts| ==> 0 <= nfts[i].index <= MaxSafeInteger
  {
    if BatchEntries(nfts).Success? {
      BatchEntriesKeysFit(nfts);
    } else {
      var i :| 0 <= i < |nfts| && !SafeInteger(nfts[i].index);
    }
  }

  method SendBatchMintBody(queryId: int, nfts: seq<CollectionMint>, mintRoot: map<int, CollectionMint> -> Cell)
    returns (body: Result<Cell>)
    ensures body == BatchMintBody(queryId, nfts, mintRoot)
  {
    if |nfts| > MaxBatchItems {
      return Failure(LimitExceeded);
    }
    var dict, filled := FillBatchDictionary(nfts);
    if filled.Fail? {
      return Failure(filled.error);
    }
    // The opcode cannot fail on a builder this empty.
    var b := new Builder();
    var stored := b.StoreUint(2, 32);
    :- b.StoreUint(queryId, 64);
    :- b.StoreDict(dict, mintRoot);
    var cell := b.EndCell();
    body := Success(cell);
  }

  /** The loop of the batch mint: a dictionary with 64-bit keys, and one
      `set` per item, in order. It ends with the dictionary BatchEntries
      describes, or stops at the first index that is not a safe integer. */
  method FillBatchDictionary(nfts: seq<CollectionMint>) returns (dict: Dictionary<CollectionMint>, res: Outcome)
    ensures dict.keyBits == 64
    ensures res == if BatchEntries(nfts).Success? then Pass else Fail(UnsafeKey)
    ensures res.Pass? ==> dict.entries == BatchEntries(nfts).value
  {
    dict := new Dictionary<CollectionMint>.Empty(64);
    for i := 0 to |nfts|
      invariant BatchEntries(nfts[..i]).Success?
      invariant dict.entries == BatchEntries(nfts[..i]).value
      invariant dict.keyBits == 64
    {
      BatchEntriesStep(nfts, i);
      var added := dict.Set(nfts[i].index, nfts[i]);
      if added.Fail? {
        BatchFailurePersists(nfts, i + 1);
        return dict, added;
      }
    }
    assert nfts[..|nfts|] == nfts;
    res := Pass;
  }

  /** One turn of the loop: the prefix one item longer adds that item, or
      fails when its index is not a safe integer. */
  lemma BatchEntriesStep(nfts: seq<CollectionMint>, i: nat)
    requires i < |nfts| && BatchEntries(nfts[..i]).Success?
    ensures BatchEntries(nfts[..i + 1])
            == if SafeInteger(nfts[i].index) then Success(BatchEntries(nfts[..i]).value[nfts[i].index := nfts[i]])
               else Failure(UnsafeKey)
  {
    assert nfts[..i + 1][..i] == nfts[..i];
  }

  /** A failing prefix makes the whole batch fail, with the same error. */
  lemma {:induction false} BatchFailurePersists(nfts: seq<CollectionMint>, n: nat)
    requires n <= |nfts|
    requires BatchEntries(nfts[..n]).Failure?
    ensures BatchEntries(nfts) == Failure(UnsafeKey)
  {
    assert nfts[..|nfts|] == nfts;
  }

  /** The collection contract's reading of a batch-mint body: the query id
      and the dictionary root, if any. */
  function ParseBatchMint(c: Cell): Option<(nat, Option<Cell>)>
  {
    var head :- ParseBatchMintHead(BeginParse(c));
    var dict :- LoadMaybeRef(head.2);
    if head.0 != 2 || !Exhausted(dict.1) then None else Some((head.1, dict.0))
  }

  /** Opcode and query id, and what follows them. */
  function ParseBatchMintHead(s: Slice): Option<(nat, nat, Slice)>
  {
    var op :- LoadUint(s, 32);
    var query :- LoadUint(op.1, 64);
    Some((op.0, query.0, query.1))
  }

  /** Reading the body back gives the query id and the dictionary root,
      which is there exactly when some item was added. */
  lemma BatchMintRoundTrip(queryId: int, nfts: seq<CollectionMint>, mintRoot: map<int, CollectionMint> -> Cell)
    requires BatchMintBody(queryId, nfts, mintRoot).Success?
    ensures ParseBatchMint(BatchMintBody(queryId, nfts, mintRoot).value)
            == Some((queryId, if |BatchEntries(nfts).value| == 0 then None
                              else Some(mintRoot(BatchEntries(nfts).value))))
  {
    var entries := BatchEntries(nfts).value;
    var present := |entries| > 0;
    BatchMintFieldsLayout(queryId, entries, mintRoot);
    ParseBatchMintHeadOf(2, queryId, [present], if present then [mintRoot(entries)] else []);
    ParseBatchMintOf(BatchMintBody(queryId, nfts, mintRoot).value, 2, queryId, present, mintRoot(entries));
  }

  lemma ParseBatchMintHeadOf(op: nat, queryId: nat, rest: seq<bool>, refs: seq<Cell>)
    requires op < Pow2(32) && queryId < Pow2(64)
    ensures ParseBatchMintHead(Slice(UintBits(op, 32) + UintBits(queryId, 64) + rest, refs))
            == Some((op, queryId, Slice(rest, refs)))
  {
    Assoc3(UintBits(op, 32), UintBits(queryId, 64), rest);
    LoadUintOf(op, 32, UintBits(queryId, 64) + rest, refs);
    LoadUintOf(queryId, 64, rest, refs);
  }

  /** A body whose head reads back, followed by the dictionary's presence
      bit and (when set) its root, gives the query id and the root exactly
      when the opcode is the batch-mint opcode 2. */
  lemma ParseBatchMintOf(c: Cell, op: nat, queryId: nat, present: bool, root: Cell)
    requires ParseBatchMintHead(BeginParse(c))
             == Some((op, queryId, Slice([present], if present then [root] else [])))
    ensures ParseBatchMint(c) == if op == 2 then Some((queryId, if present then Some(root) else None)) else None
  {
    ParsePresenceOnly(present, root);
  }

  /** The last field of the batch-mint body: the presence bit, and the root
      reference exactly when it is set, with nothing after them. */
  lemma ParsePresenceOnly(present: bool, root: Cell)
    ensures var d := LoadMaybeRef(Slice([present], if present then [root] else []));
            d == Some((if present then Some(root) else None, Slice([], [])))
  {
    RightUnit([present]);
    RightUnit([root]);
    LoadMaybeRefOf(present, root, [], []);
  }
}

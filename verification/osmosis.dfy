/** The Osmosis token-factory denom: a native denom of the form `factory/<creator>/<subdenom>`
    that contracts can mint and burn through Stargate messages. */
module Osmosis {
  import opened Wrappers
  import opened Seqs
  import opened Strings
  import opened Decimal
  import opened Cosmos

  /** A token-factory denom. The string field is public in the program, so any string can be
      wrapped; only `TryFromAssetInfo` checks its shape. */
  datatype OsmosisDenom = OsmosisDenom(denom: string)

  const SEPARATOR: char := '/'
  const FACTORY: string := "factory"

  const CW20_ERROR: string := "Cannot convert Cw20 asset to OsmosisDenom."
  const INVALID_DENOM_ERROR: string := "Invalid denom for OsmosisDenom."
  const CW1155_ERROR: string := "Cannot convert Cw1155 asset to OsmosisDenom."
  const NO_CREATE_DENOM_EVENT_ERROR: string := "cannot find `create_denom` event"
  const NO_NEW_TOKEN_DENOM_ERROR: string := "cannot find `new_token_denom` attribute"

  const CREATE_DENOM_EVENT: string := "create_denom"
  const NEW_TOKEN_DENOM_KEY: string := "new_token_denom"

  /** Reply id reserved for the acknowledgment of a denom creation. */
  const REPLY_SAVE_OSMOSIS_DENOM: U64 := 14508

  /** Shape of a token-factory denom stated without splitting: exactly two separators, and the
      string starts with `factory/`. */
  predicate IsFactoryDenom(s: string)
  {
    CountOf(s, SEPARATOR) == 2 && FACTORY + [SEPARATOR] <= s
  }

  /** The factory denom of `creator` and `subdenom`. */
  function FactoryDenom(creator: string, subdenom: string): string
  {
    FACTORY + [SEPARATOR] + creator + [SEPARATOR] + subdenom
  }

  /** The split-based test the conversion performs agrees with the shape predicate. */
  lemma SplitShape(s: string)
    ensures (|Split(s, SEPARATOR)| == 3 && Split(s, SEPARATOR)[0] == FACTORY) <==> IsFactoryDenom(s)
  {
    CountOfAbsent(s, SEPARATOR);
    assert SEPARATOR !in FACTORY;
    if SEPARATOR in s {
      SplitHead(s, SEPARATOR, FACTORY);
    }
  }

  /** `impl From<OsmosisDenom> for AssetInfo`. */
  function ToAssetInfo(d: OsmosisDenom): (a: AssetInfo)
    ensures a.Native? && a.denom == d.denom
  {
    Native(d.denom)
  }

  /** What converting `a` into an `OsmosisDenom` may return: success exactly for native denoms
      of the factory shape, keeping the string, and otherwise the error for the asset's kind. */
  predicate IsConversionOf(a: AssetInfo, r: Result<OsmosisDenom, StdError>)
  {
    && (r.Success? <==> a.Native? && IsFactoryDenom(a.denom))
    && (r.Success? ==> r.value.denom == a.denom)
    && (a.Cw20? ==> r == Failure(GenericErr(CW20_ERROR)))
    && (a.Cw1155? ==> r == Failure(GenericErr(CW1155_ERROR)))
    && (a.Native? && r.Failure? ==> r.error == GenericErr(INVALID_DENOM_ERROR))
  }

  /** `impl TryFrom<AssetInfo> for OsmosisDenom`. */
  function TryFromAssetInfo(a: AssetInfo): (r: Result<OsmosisDenom, StdError>)
    ensures IsConversionOf(a, r)
  {
    match a
    case Cw20(_) => Failure(GenericErr(CW20_ERROR))
    case Native(denom) =>
      var parts := Split(denom, SEPARATOR);
      SplitShape(denom);
      if |parts| != 3 || parts[0] != FACTORY then Failure(GenericErr(INVALID_DENOM_ERROR))
      else Success(OsmosisDenom(denom))
    case Cw1155(_, _) => Failure(GenericErr(CW1155_ERROR))
  }

  /** `impl TryFrom<&AssetInfo> for OsmosisDenom`: converts a clone of the borrowed asset, which
      for an immutable value is the asset itself. */
  function TryFromAssetInfoRef(a: AssetInfo): (r: Result<OsmosisDenom, StdError>)
    ensures IsConversionOf(a, r)
  {
    TryFromAssetInfo(a)
  }

  /** The by-reference conversion gives the same result as the by-value one. */
  lemma ByRefMatchesByValue(a: AssetInfo)
    ensures TryFromAssetInfoRef(a) == TryFromAssetInfo(a)
  {
  }

  /** The factory denom is the three segments joined by the separator. */
  lemma JoinFactorySegments(creator: string, subdenom: string)
    ensures Join([FACTORY, creator, subdenom], SEPARATOR) == FactoryDenom(creator, subdenom)
  {
    var parts := [FACTORY, creator, subdenom];
    assert parts[1..] == [creator, subdenom];
    assert parts[1..][1..] == [subdenom];
    assert Join(parts[1..], SEPARATOR) == creator + [SEPARATOR] + subdenom;
    assert Join(parts, SEPARATOR) == FACTORY + [SEPARATOR] + (creator + [SEPARATOR] + subdenom);
  }

  /** Every `factory/<creator>/<subdenom>` with separator-free parts is accepted unchanged,
      including empty creator or subdenom segments. */
  lemma FactoryDenomAccepted(creator: string, subdenom: string)
    requires SEPARATOR !in creator && SEPARATOR !in subdenom
    ensures TryFromAssetInfo(Native(FactoryDenom(creator, subdenom)))
         == Success(OsmosisDenom(FactoryDenom(creator, subdenom)))
  {
    var parts := [FACTORY, creator, subdenom];
    assert SEPARATOR !in FACTORY;
    assert SegmentsFree(parts, SEPARATOR);
    SplitJoin(parts, SEPARATOR);
    JoinFactorySegments(creator, subdenom);
  }

  /** Every accepted denom is `factory/<creator>/<subdenom>` for its second and third segments. */
  lemma AcceptedDenomDecomposes(s: string)
    requires TryFromAssetInfo(Native(s)).Success?
    ensures var parts := Split(s, SEPARATOR);
      && |parts| == 3
      && SEPARATOR !in parts[1] && SEPARATOR !in parts[2]
      && s == FactoryDenom(parts[1], parts[2])
  {
    SplitShape(s);
    var parts := Split(s, SEPARATOR);
    assert parts == [FACTORY, parts[1], parts[2]];
    JoinFactorySegments(parts[1], parts[2]);
  }

  /** Round trip: an asset accepted by the conversion is rebuilt exactly by `From`, and converting
      that again yields the same denom. */
  lemma RoundTrip(a: AssetInfo, d: OsmosisDenom)
    requires TryFromAssetInfo(a) == Success(d)
    ensures ToAssetInfo(d) == a
    ensures TryFromAssetInfo(ToAssetInfo(d)) == Success(d)
  {
  }

  /** Because the field is public, the round trip from a denom holds exactly for well-shaped
      strings; a hand-built `OsmosisDenom` with another shape is rejected on the way back. */
  lemma DenomRoundTripIff(d: OsmosisDenom)
    ensures TryFromAssetInfo(ToAssetInfo(d)) == Success(d) <==> IsFactoryDenom(d.denom)
  {
  }

  /** A denom with a creator address and a subdenom is accepted. */
  lemma ExampleAccepted()
    ensures TryFromAssetInfo(Native("factory/osmo1abc/mytoken")).Success?
  {
    var creator, subdenom := "osmo1abc", "mytoken";
    assert FactoryDenom(creator, subdenom) == "factory/osmo1abc/mytoken";
    FactoryDenomAccepted(creator, subdenom);
  }

  /** Empty creator and subdenom segments still count as segments. */
  lemma ExampleEmptySegmentsAccepted()
    ensures TryFromAssetInfo(Native("factory//")).Success?
  {
    FactoryDenomAccepted("", "");
    assert FactoryDenom("", "") == "factory//";
  }

  /** Two segments are too few. */
  lemma ExampleTwoSegmentsRejected()
    ensures TryFromAssetInfo(Native("factory/mytoken")).Failure?
  {
    var head := FACTORY + [SEPARATOR];
    var tail := "mytoken";
    assert "factory/mytoken" == head + tail;
    assert CountOf(head + tail, SEPARATOR) == 1 by {
      CountOfAppend(head, tail, SEPARATOR);
      CountOfAppend(FACTORY, [SEPARATOR], SEPARATOR);
      assert SEPARATOR !in FACTORY && SEPARATOR !in tail;
      CountOfAbsent(FACTORY, SEPARATOR);
      CountOfAbsent(tail, SEPARATOR);
    }
  }

  /** A first segment other than `factory` is rejected. */
  lemma ExampleWrongPrefixRejected()
    ensures TryFromAssetInfo(Native("other/osmo1abc/mytoken")).Failure?
  {
  }

  /** Four segments are too many. */
  lemma ExampleFourSegmentsRejected()
    ensures TryFromAssetInfo(Native("factory/a/b/c")).Failure?
  {
    var prefix := FactoryDenom("a", "b");
    assert "factory/a/b/c" == prefix + [SEPARATOR] + "c";
    assert CountOf(prefix, SEPARATOR) == 2 by {
      FactoryDenomAccepted("a", "b");
    }
    assert CountOf(prefix + [SEPARATOR] + "c", SEPARATOR) == 3 by {
      CountOfAppend(prefix + [SEPARATOR], "c", SEPARATOR);
      CountOfAppend(prefix, [SEPARATOR], SEPARATOR);
    }
  }

  /** `Token::transfer`: one bank send of `amount` of this denom to `to`; zero is not rejected. */
  function Transfer(d: OsmosisDenom, to: string, amount: Uint128): (r: Result<Response, StdError>)
    ensures r.Success? && |r.value.messages| == 1
    ensures var m := r.value.messages[0];
      && m.replyOn == Never
      && m.msg == Bank(Send(to, [Coin(d.denom, amount)]))
  {
    Success(AddMessage(NewResponse(), Bank(Send(to, [Coin(d.denom, amount)]))))
  }

  /** The token-factory coin for `amount` of this denom, with the amount rendered in decimal. */
  function ProtoCoinOf(d: OsmosisDenom, amount: Uint128): (c: ProtoCoin)
    ensures c.denom == d.denom && ParseDecimal(c.amount) == Some(amount as nat)
  {
    ParseDecimalString(amount);
    ProtoCoin(d.denom, DecimalString(amount))
  }

  /** `Mint::mint`: a token-factory mint of `amount` signed by `sender`, then a bank send of the
      same `amount` to `recipient`, in this order; zero is not rejected. */
  function Mint(d: OsmosisDenom, sender: string, recipient: string, amount: Uint128): (r: Result<Response, StdError>)
    ensures r.Success? && |r.value.messages| == 2
    ensures forall k :: 0 <= k < 2 ==> r.value.messages[k].replyOn == Never
    ensures var m := r.value.messages[0].msg;
      && m.Stargate? && m.typeUrl == MintUrl && m.value.MsgMint?
      && m.value.sender == sender
      && m.value.amount.Some? && m.value.amount.value.denom == d.denom
      && ParseDecimal(m.value.amount.value.amount) == Some(amount as nat)
    ensures r.value.messages[1].msg == Bank(Send(recipient, [Coin(d.denom, amount)]))
  {
    var msgs := [
      Stargate(MintUrl, MsgMint(Some(ProtoCoinOf(d, amount)), sender)),
      Bank(Send(recipient, [Coin(d.denom, amount)]))
    ];
    var response := AddMessages(NewResponse(), msgs);
    assert response.messages[0] == NewSubMsg(msgs[0]);
    assert response.messages[1] == NewSubMsg(msgs[1]);
    Success(response)
  }

  /** `Burn::burn`: one token-factory burn of `amount` signed by `sender`. */
  function Burn(d: OsmosisDenom, sender: string, amount: Uint128): (r: Result<Response, StdError>)
    ensures r.Success? && |r.value.messages| == 1
    ensures r.value.messages[0].replyOn == Never
    ensures var m := r.value.messages[0].msg;
      && m.Stargate? && m.typeUrl == BurnUrl && m.value.MsgBurn?
      && m.value.sender == sender
      && m.value.amount.Some? && m.value.amount.value.denom == d.denom
      && ParseDecimal(m.value.amount.value.amount) == Some(amount as nat)
  {
    Success(AddMessage(NewResponse(), Stargate(BurnUrl, MsgBurn(Some(ProtoCoinOf(d, amount)), sender))))
  }

  predicate IsCreateDenomEvent(e: Event)
  {
    e.ty == CREATE_DENOM_EVENT
  }

  predicate IsNewTokenDenomAttribute(a: Attribute)
  {
    a.key == NEW_TOKEN_DENOM_KEY
  }

  /** `parse_osmosis_denom_from_instantiate_event`: the value of the first `new_token_denom`
      attribute of the first `create_denom` event, with a distinct error for each missing piece. */
  function ParseOsmosisDenomFromInstantiateEvent(response: SubMsgResponse): (r: Result<string, StdError>)
    ensures r == Failure(GenericErr(NO_CREATE_DENOM_EVENT_ERROR))
        <==> forall i :: 0 <= i < |response.events| ==> !IsCreateDenomEvent(response.events[i])
    ensures forall i, j ::
        IsFirst(response.events, i, IsCreateDenomEvent)
        && IsFirst(response.events[i].attributes, j, IsNewTokenDenomAttribute)
        ==> r == Success(response.events[i].attributes[j].value)
    ensures forall i ::
        IsFirst(response.events, i, IsCreateDenomEvent)
        && (forall j :: 0 <= j < |response.events[i].attributes|
              ==> !IsNewTokenDenomAttribute(response.events[i].attributes[j]))
        ==> r == Failure(GenericErr(NO_NEW_TOKEN_DENOM_ERROR))
  {
    match Find(response.events, IsCreateDenomEvent)
    case None => Failure(GenericErr(NO_CREATE_DENOM_EVENT_ERROR))
    case Some(event) =>
      match Find(event.attributes, IsNewTokenDenomAttribute)
      case None => Failure(GenericErr(NO_NEW_TOKEN_DENOM_ERROR))
      case Some(attribute) => Success(attribute.value)
  }

  /** Only the first `create_denom` event is consulted: whatever follows it, including another
      `create_denom` event that does carry the attribute, leaves the outcome unchanged. */
  lemma FirstCreateDenomEventDecides(pre: seq<Event>, e: Event, post: seq<Event>, data: Option<Binary>)
    requires forall k :: 0 <= k < |pre| ==> !IsCreateDenomEvent(pre[k])
    requires IsCreateDenomEvent(e)
    ensures ParseOsmosisDenomFromInstantiateEvent(SubMsgResponse(pre + [e] + post, data))
         == ParseOsmosisDenomFromInstantiateEvent(SubMsgResponse([e], None))
  {
    FindStopsAtFirst(pre, e, post, IsCreateDenomEvent);
    FindStopsAtFirst([], e, [], IsCreateDenomEvent);
    assert [] + [e] + [] == [e];
  }
}

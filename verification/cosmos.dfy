/** The values the token core exchanges with its environment: the `cosmwasm_std` message,
    response and event types, the `cw_asset` asset identity, and the Osmosis token-factory
    payloads. Only the fields the core reads or writes are kept; the protobuf encoding of the
    Stargate payloads is replaced by the payload datatype itself. */
module Cosmos {
  import opened Wrappers

  const U64_LIMIT: nat := 0x1_0000_0000_0000_0000
  const UINT128_LIMIT: nat := 0x1_0000_0000_0000_0000_0000_0000_0000_0000

  type U64 = n: nat | n < U64_LIMIT
  type Uint128 = n: nat | n < UINT128_LIMIT

  type Binary = seq<bv8>

  /** `cosmwasm_std::StdError`; the core only raises generic errors carrying a message. */
  datatype StdError = GenericErr(msg: string)

  /** `cw_asset::AssetInfo`: a native denom, a CW20 contract or a CW1155 contract and token id. */
  datatype AssetInfo =
    | Native(denom: string)
    | Cw20(contract: string)
    | Cw1155(contract: string, tokenId: string)

  /** `cosmwasm_std::Coin`. */
  datatype Coin = Coin(denom: string, amount: Uint128)

  /** `cosmwasm_std::BankMsg`; only `Send` is produced. */
  datatype BankMsg = Send(toAddress: string, amount: seq<Coin>)

  /** `cosmos.base.v1beta1.Coin`, whose amount travels as a decimal string. */
  datatype ProtoCoin = ProtoCoin(denom: string, amount: string)

  /** Type URL of a Stargate message; the concrete URL strings are not modelled. */
  datatype TypeUrl = MintUrl | BurnUrl

  /** The token-factory messages `MsgMint` and `MsgBurn` before encoding. */
  datatype TokenFactoryMsg =
    | MsgMint(amount: Option<ProtoCoin>, sender: string)
    | MsgBurn(amount: Option<ProtoCoin>, sender: string)

  /** `cosmwasm_std::CosmosMsg`, restricted to the variants the core emits. */
  datatype CosmosMsg =
    | Bank(bank: BankMsg)
    | Stargate(typeUrl: TypeUrl, value: TokenFactoryMsg)

  /** When the environment should call back the emitting contract about a sub-message. */
  datatype ReplyOn = Always | OnSuccess | OnError | Never

  /** `cosmwasm_std::SubMsg`: a message with its reply correlation id. */
  datatype SubMsg = SubMsg(id: U64, msg: CosmosMsg, gasLimit: Option<U64>, replyOn: ReplyOn)

  /** `cosmwasm_std::Response`, reduced to the messages it carries. */
  datatype Response = Response(messages: seq<SubMsg>)

  /** `cosmwasm_std::Attribute` and `cosmwasm_std::Event`. */
  datatype Attribute = Attribute(key: string, value: string)
  datatype Event = Event(ty: string, attributes: seq<Attribute>)

  /** `cosmwasm_std::SubMsgResponse`: what a successful sub-message reports back. */
  datatype SubMsgResponse = SubMsgResponse(events: seq<Event>, data: Option<Binary>)

  /** `SubMsg::new`: a message that asks for no reply. */
  function NewSubMsg(msg: CosmosMsg): (m: SubMsg)
    ensures m.msg == msg && m.replyOn == Never
  {
    SubMsg(0, msg, None, Never)
  }

  /** `Response::new`. */
  function NewResponse(): (r: Response)
    ensures |r.messages| == 0
  {
    Response([])
  }

  /** `Response::add_message`: the same as adding the one-element list `[msg]`. */
  function AddMessage(r: Response, msg: CosmosMsg): (r': Response)
    ensures r' == AddMessages(r, [msg])
  {
    Response(r.messages + [NewSubMsg(msg)])
  }

  /** `Response::add_messages`: appends the messages in order, none of them asking for a reply. */
  function AddMessages(r: Response, msgs: seq<CosmosMsg>): (r': Response)
    ensures |r'.messages| == |r.messages| + |msgs|
    ensures r'.messages[..|r.messages|] == r.messages
    ensures forall k :: |r.messages| <= k < |r'.messages| ==> r'.messages[k] == NewSubMsg(msgs[k - |r.messages|])
    decreases |msgs|
  {
    if |msgs| == 0 then r else AddMessages(Response(r.messages + [NewSubMsg(msgs[0])]), msgs[1..])
  }
}

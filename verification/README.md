# Osmosis token-factory denom, modelled in Dafny

This project models the Osmosis variant of the cw-token abstraction (`src/implementations/osmosis.rs`).
An `OsmosisDenom` wraps a native denom of the shape `factory/<creator>/<subdenom>`, issued by the
Osmosis token-factory module. The model covers five things:

- the checked conversion from a `cw_asset::AssetInfo` into an `OsmosisDenom`, its by-reference form,
  and the reverse conversion back into `AssetInfo::Native`;
- the message builders `transfer`, `mint` and `burn`, which turn (denom, addresses, amount) into an
  ordered list of messages for the chain;
- `parse_osmosis_denom_from_instantiate_event`, which reads the new denom from the events of a
  denom-creation acknowledgment;
- the reserved reply id `REPLY_SAVE_OSMOSIS_DENOM = 14508` (`Osmosis.REPLY_SAVE_OSMOSIS_DENOM`, typed as
  a `u64`);
- the Rust library behaviour the code relies on. `str::split` keeps empty segments, and `k`
  separators give `k + 1` parts. `Iterator::find` returns the first match. `Uint128::to_string`
  renders the amount in decimal.

Modules, one per concern:

| file | module | contents |
|---|---|---|
| wrappers.dfy | `Wrappers` | `Option`, `Result` |
| seqs.dfy | `Seqs` | first-match search (`Position`, `Find`) |
| strings.dfy | `Strings` | `Split` with Rust semantics, `Join`, `CountOf`, and the split/join round trips |
| decimal.dfy | `Decimal` | decimal rendering of amounts and its parser, with round trips in both directions |
| cosmos.dfy | `Cosmos` | the `cosmwasm_std` / `cw_asset` values: `AssetInfo`, `Coin`, `CosmosMsg`, `SubMsg`, `Response`, `Event`, `Attribute`, `SubMsgResponse`, `Uint128`, `u64` |
| osmosis.dfy | `Osmosis` | the core: conversions, builders, event parser, reply id |
| ledger.dfy | `Ledger` | how the chain applies the emitted messages to balances, used to state what each builder achieves |

The Stargate payloads are modelled as the datatype `TokenFactoryMsg` (`MsgMint` / `MsgBurn`), not as
protobuf bytes. A type URL is one of two tags (`MintUrl`, `BurnUrl`). The amount inside a payload is
a string, as in the protobuf coin. The contracts state that parsing this string as a decimal gives
back the amount.

The `Ledger` module is not part of the program. It is the chain's semantics, kept small:

- a bank send is rejected unless its coin list is non-empty and every amount is positive. Otherwise
  it debits all coins from the dispatching contract and then credits them to the recipient, and
  fails if any balance is short;
- a token-factory mint is rejected for a zero amount, and otherwise credits its `sender`;
- a token-factory burn is rejected for a zero amount, and otherwise debits its `sender`, failing if
  the balance is short;
- the messages of a response apply in order, and the first failure aborts the whole response.

Within that semantics the model proves what each builder does overall, for a positive amount:

- a transfer moves exactly `amount` from the contract to the recipient;
- a mint signed by the contract itself gives the recipient exactly `amount` more;
- a burn removes exactly `amount` from the sender;
- every other balance stays unchanged.

A zero amount makes each of the three responses abort.

What the code does and does not check:

- `transfer`, `mint` and `burn` pass a zero amount through unchanged. Rejecting it is left to the chain.
- `mint` and `burn` perform no admin or owner check. The `TODO` at the end of `osmosis.rs`
  (lines 195-196) lists the missing owner check.
- `mint` mints to the `sender` it is given, then sends from the dispatching contract.
- `OsmosisDenom`'s string field is public, so an unchecked `OsmosisDenom` can be built by hand. For
  that reason the model's `OsmosisDenom` carries no invariant. `Osmosis.DenomRoundTripIff` states
  exactly when the round trip holds.

## Model

| member | source | states |
|---|---|---|
| Osmosis.TryFromAssetInfo | src/implementations/osmosis.rs:35-55 | Converting a native denom succeeds iff the string has exactly two `/` and starts with `factory/`. On success the denom string is kept unchanged. Cw20 and Cw1155 assets always fail, each with its own message. A rejected native denom fails with the invalid-denom message. |
| Osmosis.SplitShape | src/implementations/osmosis.rs:44-45 | The code's test (split on `/`, exactly 3 parts, part 0 is `factory`) is equivalent to the shape predicate: two separators and the `factory/` prefix. |
| Osmosis.TryFromAssetInfoRef | src/implementations/osmosis.rs:57-63 | The by-reference conversion satisfies the same contract (`IsConversionOf`) as the by-value conversion: the same accept/reject rule, the same preserved string and the same error messages. |
| Osmosis.ByRefMatchesByValue | src/implementations/osmosis.rs:57-63 | Converting a borrowed asset gives the same result as converting the owned asset. |
| Osmosis.ToAssetInfo | src/implementations/osmosis.rs:29-33 | The reverse conversion gives a native asset whose denom is exactly the wrapped string. |
| Osmosis.RoundTrip | src/implementations/osmosis.rs:29-55 | If an asset converts to `d`, then `From` rebuilds exactly that asset, and converting it again gives `d`. |
| Osmosis.DenomRoundTripIff | src/implementations/osmosis.rs:20-55 | For an arbitrary `OsmosisDenom`, which has a public field, converting out and back gives the same denom iff its string has the factory shape. |
| Osmosis.FactoryDenomAccepted | src/implementations/osmosis.rs:43-48 | Every `factory/<creator>/<subdenom>` whose two segments contain no `/` is accepted and kept unchanged, even when those segments are empty. |
| Osmosis.AcceptedDenomDecomposes | src/implementations/osmosis.rs:43-48 | Every accepted denom equals `factory/` + segment 1 + `/` + segment 2, and neither segment contains `/`. Together with FactoryDenomAccepted this characterises the accepted strings in both directions. |
| Osmosis.ExampleAccepted | src/implementations/osmosis.rs:43-48 | `factory/osmo1abc/mytoken` is accepted. |
| Osmosis.ExampleEmptySegmentsAccepted | src/implementations/osmosis.rs:43-48 | `factory//` is accepted, because empty segments still count. |
| Osmosis.ExampleTwoSegmentsRejected | src/implementations/osmosis.rs:43-48 | `factory/mytoken` is rejected: it has only two parts. |
| Osmosis.ExampleWrongPrefixRejected | src/implementations/osmosis.rs:43-48 | `other/osmo1abc/mytoken` is rejected: part 0 is not `factory`. |
| Osmosis.ExampleFourSegmentsRejected | src/implementations/osmosis.rs:43-48 | `factory/a/b/c` is rejected: it has four parts. |
| Osmosis.Transfer | src/implementations/osmosis.rs:66-74 | Always succeeds with exactly one message. That message asks for no reply and is a bank send to `to` of the single coin (this denom, `amount`). Zero is not rejected. |
| Osmosis.ProtoCoinOf | src/implementations/osmosis.rs:100-103 | The token-factory coin carries this denom and an amount string that parses back to `amount`. |
| Osmosis.Mint | src/implementations/osmosis.rs:89-115 | Always succeeds with exactly two messages, neither asking for a reply, in this order: (1) a token-factory mint with this denom, signed by `sender`, whose amount string parses to `amount`; (2) a bank send to `recipient` of the coin (this denom, `amount`). |
| Osmosis.Burn | src/implementations/osmosis.rs:118-130 | Always succeeds with exactly one message that asks for no reply: a token-factory burn with this denom, signed by `sender`, whose amount string parses to `amount`. |
| Osmosis.ParseOsmosisDenomFromInstantiateEvent | src/implementations/osmosis.rs:140-155 | Fails with the missing-event error iff no event has type `create_denom`. Otherwise it returns the value of the first `new_token_denom` attribute of the first `create_denom` event. If that event has no such attribute, it fails with the missing-attribute error. |
| Osmosis.FirstCreateDenomEventDecides | src/implementations/osmosis.rs:140-152 | Only the first `create_denom` event counts. The outcome equals parsing that event alone, whatever events follow it, even a later `create_denom` event that does carry the attribute. |
| Seqs.Find | src/implementations/osmosis.rs:141-151 | The search used for events and attributes returns the first element that matches, and returns nothing iff no element matches. |
| Seqs.FindStopsAtFirst | src/implementations/osmosis.rs:141-145 | Elements after the first match do not change what the search returns. |
| Strings.Split | src/implementations/osmosis.rs:44 | `denom.split('/').collect()` gives one more part than the string has `/` characters, with empty parts counted. No part contains `/`. Joining the parts with `/` gives back the original string. |
| Strings.SplitJoin | src/implementations/osmosis.rs:44 | Splitting a join of separator-free parts gives back exactly those parts. Together with `Split`'s contract, split and join are inverse to each other. |
| Decimal.DecimalString | src/implementations/osmosis.rs:102 | The rendering of an amount is canonical: non-empty, digits only, and no leading zero unless it is `0`. |
| Decimal.ParseDecimalString | src/implementations/osmosis.rs:102 | Parsing the decimal rendering of an amount gives back the amount. |
| Decimal.DecimalStringOfCanonical | src/implementations/osmosis.rs:102 | Every canonical digit string is the rendering of the number it denotes. So rendering is a bijection onto canonical strings. |
| Cosmos.NewResponse | src/implementations/osmosis.rs:67 | `Response::new` starts with no messages. |
| Cosmos.NewSubMsg | src/implementations/osmosis.rs:67-73 | `SubMsg::new`, which `add_message` applies, carries the given message and asks for no reply. |
| Cosmos.AddMessage | src/implementations/osmosis.rs:67-73 | `add_message` is the same as `add_messages` of the one-element list. |
| Cosmos.AddMessages | src/implementations/osmosis.rs:96-114 | Appending messages to a response keeps the earlier messages and adds the new ones in the given order, each asking for no reply. |
| Ledger.TransferEffect | src/implementations/osmosis.rs:66-74 | Executing a transfer succeeds iff `amount` is positive and the contract holds that much of the denom. It then moves exactly `amount` from the contract to `to` and changes no other balance. |
| Ledger.MintEffect | src/implementations/osmosis.rs:96-114 | Executing a mint signed by the contract succeeds iff `amount` is positive. Its only net effect is `amount` more of the denom for the recipient, even when the recipient is the contract. |
| Ledger.BurnEffect | src/implementations/osmosis.rs:119-130 | Executing a burn succeeds iff `amount` is positive and the sender holds that much of the denom. It then removes exactly `amount` from the sender and changes no other balance. |
| Ledger.MintThenBurnRestores | src/implementations/osmosis.rs:89-130 | For a positive `amount`, minting it to the contract and then burning it restores every balance: burn undoes mint. With a zero amount the mint is already rejected. |
| Ledger.ZeroAmountAborts | src/implementations/osmosis.rs:66-130 | The builders pass a zero amount through without a check, so the chain rejects the transfer, mint and burn responses as invalid coins, whatever the balances. |

## Left out

- `Instantiate::instantiate` (src/implementations/osmosis.rs:157-179): the body refers to `sender`, `recipient` and `init_info.amount`, none of which are defined there. The fragment has no consistent meaning to model.
- `save_asset` and `set_admin_addr` (src/implementations/osmosis.rs:181-192): both are `todo!()`, so there is no behaviour to model. For the same reason there is no model of the reply-continuation state machine or the admin metadata. `REPLY_SAVE_OSMOSIS_DENOM` is modelled only as a constant.
- `query_balance` (src/implementations/osmosis.rs:76-82): a direct call to the chain's balance querier, which is an environment call.
- The `Display` impl and `is_native`: formatting, and a constant `true`.
- The protobuf `encode` of `MsgMint` / `MsgBurn` and the type-URL strings: foreign encoding. They are replaced by the `TokenFactoryMsg` datatype and the `TypeUrl` tags.
- `OsmosisDenomInfo` (src/implementations/osmosis.rs:132-136): it is used only by the `instantiate` fragment.
- `src/token.rs`: trait declarations without behaviour. Their signatures do not match the Osmosis implementations. Authorisation, `AssertReceived`, `Send` and `TransferFrom` have no implementation for this denom.
- `Response` is reduced to its messages. Attributes, events and data are never set by this code.
- Ledger: balances are unbounded naturals. The admin check and signer check that the chain applies to token-factory messages are not modelled. Of the chain's stateless message checks, only non-empty coin lists and positive amounts are modelled. Denom syntax and coin-list ordering are not checked.

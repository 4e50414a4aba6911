# TWS position sizer, modelled in Dafny

The "Equities Position Sizer" tab of this Interactive Brokers (TWS) desktop tool suggests how many shares to buy. The user works with four fields:

- the account's net liquidation value (NLV);
- the current price of the contract shown in TWS's display group;
- a risk percentage (0.5 to begin with);
- an absolute stop-loss price.

The tab computes three results:

- the risk budget, `nlv * risk / 100`;
- the share count, the quotient `budget / (price - stop)` truncated toward zero;
- the value of those shares.

It colours the two output fields by the first account limit that the value exceeds. The limits are buying power (red), excess liquidity (orange) and total cash (yellow). It colours them green when all three limits are known and none is exceeded. Around this calculation, the tab:

- caches the limits from the broker's account-summary stream;
- subscribes to that stream once, until the panel's `disconnected()` resets the flag (nothing in the frame calls it);
- follows the TWS display group, given as a `conid@exchange` string;
- fills the price and stop-loss fields from market-data ticks.

The model has four modules:

- `Wrappers` (wrappers.dfy): `Option` and `Result`.
- `Sizing` (sizing.dfy): the calculation as pure functions over `real`, with `Truncate` for Java's `(int)` cast and `Tier = Red | Orange | Yellow | Green | Default` for the colours. The main results are about `Compute`:
  - The loss at the stop never exceeds the risk budget, and one more share would exceed it (`TruncatedLoss`).
  - No other share count within the budget is a larger position (`SharesLargestWithinBudget`).
  - The value is shares × price.
  - The tier is the first matching rule, green exactly when all limits are known and none is exceeded, and it never gets milder as the value grows (`TierMonotone`).
- `ContractInfo` (contract_info.dfy): Java's `String.split("@")`, which drops trailing empty pieces, and `Integer.parseInt`. Both come with round trips: split undoes join, and parseInt reads back `toString`. The contract string `conid@exchange` is parsed with "SMART" as the default exchange.
- `Panel` (panel.dfy): the class `PositionSizerPanel`, whose fields are those of the Java panel. The broker calls become entries of a `requests` sequence. The messages shown for failed calculations become entries of `notices`. Its invariant `Valid()` says that, since the current connection began, exactly one account-summary subscription has been sent when the flag is set, and none otherwise.

Text fields are modelled as `Text = Blank | Num(value) | Junk`. `Junk` is text that `NumberFormat.parse` rejects.

The code has only a percent risk and an absolute stop; the radio buttons for other modes are TODO comments at PositionSizerPanel.java:74 and :93. `calculate` reports three failures, each with its own message. When the NLV or the price cannot be read, the result is `MissingData`. When the risk or the stop cannot be read, it is `BadRiskOrStop`. When `validateValues` rejects the numbers, it is `InvalidInput`.

Any negative limit counts as unknown, whether it is the initial -1.0 or a negative amount the broker reported. A negative limit therefore never triggers its own colour, and the result is never green while any limit is negative.

The user can type into the NLV, price, risk and stop-loss fields (`EditField`); only the contract, shares and value fields are disabled (PositionSizerPanel.java:69-71).

Three behaviours of the code as written are kept and stated:

- A stop above the price passes validation. It yields a negative share count, which no known limit flags (`Sizing.StopAboveEntryExample`).
- Every tick that sets the price also sets the stop-loss to it. A calculation made right after such a tick is therefore rejected (`Panel.CalculateAfterTickScenario`) until the user edits the stop (`Panel.SizeAfterEditScenario`).
- The panel's `disconnected()` is the only thing that resets the subscription flag. The frame's own `disconnected` handler (MainPanel.java:105-108) does not call it.

## Model

| member | source | states |
|---|---|---|
| `Sizing.Rejects` | src/com/peterflanner/twspositionsizer/ui/PositionSizerPanel.java:333-338 | validateValues throws exactly when nlv ≤ 0, price ≤ 0, price ≥ nlv, risk ≤ 0, risk > 100 or stop = price; equivalently it accepts exactly 0 < price < nlv, 0 < risk ≤ 100 and stop ≠ price |
| `Sizing.RiskBudget` | src/com/peterflanner/twspositionsizer/ui/PositionSizerPanel.java:160 | the budget is risk percent of the NLV (budget·100 = nlv·risk): positive and at most the NLV for a positive NLV and a risk in (0, 100], the whole NLV at 100 % |
| `Sizing.AcceptedInputs` | src/com/peterflanner/twspositionsizer/ui/PositionSizerPanel.java:333-338 | inputs that validateValues lets through have 0 < price < NLV, a stop different from the price, and a risk budget in (0, NLV] |
| `Sizing.Truncate` | src/com/peterflanner/twspositionsizer/ui/PositionSizerPanel.java:162 | the (int) cast rounds toward zero: for x ≥ 0 the result is the integer n with n ≤ x < n+1, for x ≤ 0 the one with n−1 < x ≤ n |
| `Sizing.TruncateUnique` | src/com/peterflanner/twspositionsizer/ui/PositionSizerPanel.java:162 | exactly one integer satisfies that characterisation, so it defines the cast |
| `Sizing.TruncatedLoss` | src/com/peterflanner/twspositionsizer/ui/PositionSizerPanel.java:160-162 | for truncated shares n = budget/d: 0 ≤ budget − n·d < \|d\|, i.e. the loss at the stop fits the budget and one more share would not |
| `Sizing.Compute` | src/com/peterflanner/twspositionsizer/ui/PositionSizerPanel.java:160-183 | for accepted inputs: value = shares × price; \|shares\| ≤ \|quotient\| < \|shares\|+1; shares ≥ 0 when stop < price and ≤ 0 when stop > price; loss at the stop within the budget by less than one share; tier is the colour rule on the value |
| `Sizing.SharesLargestWithinBudget` | src/com/peterflanner/twspositionsizer/ui/PositionSizerPanel.java:160-162 | any share count whose loss at the stop fits the budget is at most the computed one (stop below price), or at least it (stop above price) |
| `Sizing.ChooseTier` | src/com/peterflanner/twspositionsizer/ui/PositionSizerPanel.java:167-183 | red iff buying power known and exceeded; orange iff not red and excess liquidity known and exceeded; yellow iff neither and total cash known and exceeded; green iff all three known and the value within each; default iff some limit unknown and no known one exceeded |
| `Sizing.TierMonotone` | src/com/peterflanner/twspositionsizer/ui/PositionSizerPanel.java:168-183 | a larger value never gets a milder colour against the same limits, and green at the larger value means green at the smaller |
| `Sizing.Size` | src/com/peterflanner/twspositionsizer/ui/PositionSizerPanel.java:151-192 | MissingData iff NLV or price unreadable; BadRiskOrStop iff those are readable and risk or stop is not; InvalidInput iff all readable and validateValues rejects; otherwise the sizing of Compute |
| `Sizing.SizingExample` | src/com/peterflanner/twspositionsizer/ui/PositionSizerPanel.java:160-170 | NLV 10000, price 50, risk 0.5 %, stop 49 gives 50 shares worth 2500, default colour with no limits and red against buying power 2000 |
| `Sizing.StopAboveEntryExample` | src/com/peterflanner/twspositionsizer/ui/PositionSizerPanel.java:160-179 | a stop of 51 above a price of 50 gives −100 shares worth −5000, coloured green against zero limits |
| `ContractInfo.JavaSplit` | src/com/peterflanner/twspositionsizer/ui/PositionSizerPanel.java:263 | no piece contains the separator, and when the separator occurs the last piece is never empty |
| `ContractInfo.SplitJoin` | src/com/peterflanner/twspositionsizer/ui/PositionSizerPanel.java:263 | splitting a join of separator-free pieces gives the pieces back |
| `ContractInfo.JoinSplit` | src/com/peterflanner/twspositionsizer/ui/PositionSizerPanel.java:263 | joining the pieces of a split gives the string back |
| `ContractInfo.JavaSplitEmpty` | src/com/peterflanner/twspositionsizer/ui/PositionSizerPanel.java:263-264 | the split is empty exactly for a non-empty string of separators only |
| `ContractInfo.JavaSplitTwo` | src/com/peterflanner/twspositionsizer/ui/PositionSizerPanel.java:263-269 | "a@b" with b non-empty splits into exactly [a, b] |
| `ContractInfo.ParseInt` | src/com/peterflanner/twspositionsizer/ui/PositionSizerPanel.java:265 | a parsed id lies in the Java int range and comes from a non-empty string without "@" |
| `ContractInfo.ParseShowInt` | src/com/peterflanner/twspositionsizer/ui/PositionSizerPanel.java:265 | parseInt reads back the decimal text of every int |
| `ContractInfo.ParseContractInfo` | src/com/peterflanner/twspositionsizer/ui/PositionSizerPanel.java:261-273 | no parts iff the string is only "@"s; a parsed contract has an int-range id and a non-empty exchange without "@" |
| `ContractInfo.JavaSplitJoin` | src/com/peterflanner/twspositionsizer/ui/PositionSizerPanel.java:263 | split undoes a join of two or more separator-free pieces whose last piece is not empty |
| `ContractInfo.ParsePieces` | src/com/peterflanner/twspositionsizer/ui/PositionSizerPanel.java:263-273 | for any string whose last piece between "@" is not empty, given as those pieces: BadConid iff parseInt of the first piece fails, otherwise that id with the second piece as exchange when there are exactly two pieces and SMART otherwise |
| `ContractInfo.JavaSplitTrailing` | src/com/peterflanner/twspositionsizer/ui/PositionSizerPanel.java:263 | a "@" appended to a non-empty string leaves its split unchanged, because split drops the empty last piece |
| `ContractInfo.ParseTrailingSeparator` | src/com/peterflanner/twspositionsizer/ui/PositionSizerPanel.java:263-273 | a "@" appended to a non-empty string does not change what displayGroupUpdated makes of it; with ParsePieces and the NoParts clause of ParseContractInfo this covers every string |
| `ContractInfo.ParseTrailingSeparatorExample` | src/com/peterflanner/twspositionsizer/ui/PositionSizerPanel.java:263-269 | "12@NYSE@" names contract 12 on NYSE |
| `ContractInfo.ParseFormatted` | src/com/peterflanner/twspositionsizer/ui/PositionSizerPanel.java:262-273 | "p@exchange" for any separator-free p and non-empty exchange: BadConid iff parseInt(p) fails, otherwise parseInt(p) with that exchange |
| `ContractInfo.ParseThreePieces` | src/com/peterflanner/twspositionsizer/ui/PositionSizerPanel.java:266-269 | "p@a@b" with b non-empty: BadConid iff parseInt(p) fails, otherwise parseInt(p) with exchange SMART |
| `ContractInfo.ParseShownContract` | src/com/peterflanner/twspositionsizer/ui/PositionSizerPanel.java:262-273 | "conid@exchange" written from a contract parses back to that contract |
| `ContractInfo.ParseLeadingZerosExample` | src/com/peterflanner/twspositionsizer/ui/PositionSizerPanel.java:265 | "007@NYSE" names contract 7 on NYSE |
| `ContractInfo.ParseThreePiecesExample` | src/com/peterflanner/twspositionsizer/ui/PositionSizerPanel.java:266-269 | "12@NYSE@X" names contract 12 on SMART |
| `ContractInfo.ParseBareConid` | src/com/peterflanner/twspositionsizer/ui/PositionSizerPanel.java:266-269 | a bare id, or an id followed by "@" alone, is routed to SMART |
| `Panel.Refresh` | src/com/peterflanner/twspositionsizer/ui/PositionSizerPanel.java:219-224 | a refresh keeps the earlier requests and ends with the display-group query |
| `Panel.RefreshCount` | src/com/peterflanner/twspositionsizer/ui/PositionSizerPanel.java:220-223 | a refresh adds one account-summary subscription unless the flag says one was sent |
| `Panel.PositionSizerPanel.constructor` | src/com/peterflanner/twspositionsizer/ui/PositionSizerPanel.java:45-65 | empty fields, risk 0.5, the three limits unknown (−1.0), flag clear, nothing requested |
| `Panel.PositionSizerPanel.RequestData` | src/com/peterflanner/twspositionsizer/ui/PositionSizerPanel.java:213-227 | nothing without a selected non-empty account; otherwise the account is remembered, the summary subscription sent only if the flag was clear, the display groups queried every time, and Valid kept |
| `Panel.PositionSizerPanel.Disconnected` | src/com/peterflanner/twspositionsizer/ui/PositionSizerPanel.java:205-207 | the flag is cleared and a new connection period begins |
| `Panel.PositionSizerPanel.Activated` | src/com/peterflanner/twspositionsizer/ui/PositionSizerPanel.java:195-203 | the received accounts are appended; a single account is selected, refreshing the data when the selection changes |
| `Panel.PositionSizerPanel.SelectAccount` | src/com/peterflanner/twspositionsizer/ui/PositionSizerPanel.java:144-148 | a selection change refreshes the data; reselecting the same entry does nothing |
| `Panel.PositionSizerPanel.AccountSummaryValue` | src/com/peterflanner/twspositionsizer/ui/PositionSizerPanel.java:229-243 | only the selected account's values are taken; each tag sets its own field (NLV text or one limit) and leaves the others; an unparseable value throws for the four tags and changes nothing |
| `Panel.PositionSizerPanel.DisplayGroupList` | src/com/peterflanner/twspositionsizer/ui/PositionSizerPanel.java:251-258 | subscribes to the first group when there is one |
| `Panel.PositionSizerPanel.DisplayGroupUpdated` | src/com/peterflanner/twspositionsizer/ui/PositionSizerPanel.java:260-282 | for a parsed contract the price and stop fields are cleared, then a snapshot and the contract details are requested for it; an unparseable id throws and changes nothing; an empty split changes nothing |
| `Panel.PositionSizerPanel.EditField` | src/com/peterflanner/twspositionsizer/ui/PositionSizerPanel.java:50-54 | typing into one of the four editable fields sets that field and leaves the other three and everything else unchanged |
| `Panel.PositionSizerPanel.TickPrice` | src/com/peterflanner/twspositionsizer/ui/PositionSizerPanel.java:285-295 | a LAST tick sets price and stop; a CLOSE tick does so only into an empty price field; other ticks change nothing |
| `Panel.PositionSizerPanel.UpdatePrice` | src/com/peterflanner/twspositionsizer/ui/PositionSizerPanel.java:297-302 | the price becomes both the current price and the stop-loss |
| `Panel.PositionSizerPanel.Calculate` | src/com/peterflanner/twspositionsizer/ui/PositionSizerPanel.java:151-192 | on success the outputs and colour are those of Size; on failure the outputs are untouched and the failure's message is shown |
| `Panel.ReconnectScenario` | src/com/peterflanner/twspositionsizer/ui/PositionSizerPanel.java:205-227 | select, refresh, disconnect, refresh: the summary subscription goes out once per flag period (until `disconnected()` clears the flag), the group query every time |
| `Panel.TickScenario` | src/com/peterflanner/twspositionsizer/ui/PositionSizerPanel.java:286-300 | close fills an empty field, a second close is ignored, last always wins |
| `Panel.SizeAfterEditScenario` | src/com/peterflanner/twspositionsizer/ui/PositionSizerPanel.java:151-166 | NLV 10000, a tick at 50, the user moves the stop to 49: calculate shows 50 shares worth 2500 with the default colour |
| `Panel.CalculateAfterTickScenario` | src/com/peterflanner/twspositionsizer/ui/PositionSizerPanel.java:297-300 | right after a tick the stop equals the price, so calculate is rejected with InvalidInput and shows nothing |

## Left out

- IEEE-754 doubles are modelled as exact reals, so rounding, NaN and infinities are not modelled.
- Sizing.Truncate: does not model Java's saturation of `(int)` at the int range or its mapping of NaN to 0. Share counts here are unbounded integers.
- Locale-dependent `NumberFormat`/`DecimalFormat` parsing is reduced to the `Text` datatype (`Num` for what parses, `Junk` for what does not).
- Panel.PositionSizerPanel.UpdatePrice: stores the tick price exactly. The source writes it rounded to two decimals ("0.00"), which a later calculation reads back.
- Panel.PositionSizerPanel.AccountSummaryValue: stores the NLV exactly rather than rounded to two decimals. `Double.parseDouble` is an `Option` (None where it throws).
- Panel.PositionSizerPanel.Calculate: shows the shares and the value as numbers, without the "0.00" display formatting of the value.
- ContractInfo.ParseInt: accepts ASCII decimal digits only. Java also accepts other Unicode decimal digits.
- The mouse-wheel adjustments of the stop-loss and risk fields (PositionSizerPanel.java:76-110) are not modelled. Their outcome depends on double arithmetic and formatting.
- The "Last Updated" label and its timestamps (`new Date()`) are not modelled. Neither is the colour objects' identity: the background is the `Tier`.
- `contractDetails` only writes the symbol into a label and is not modelled. The empty callbacks are not modelled either: `accountSummaryEnd`, `tickSize`, `tickString`, `tickSnapshotEnd`, `marketDataType` and `closed`.
- Broker calls (`reqAccountSummary`, `queryDisplayGroups`, `subscribeToGroupEvents`, `reqTopMktData`, `reqContractDetails`) are recorded in `requests` and not performed. Their answers arrive as calls of the callback methods.
- An exception that escapes a callback into the broker library is reported as the `thrown` result. What the library then does is not modelled.
- Swing selection events are modelled as one `RequestData` per selection change. List entries are never null.
- `volatile` and `synchronized` have nothing to model in a sequential model.
- MainPanel.java (frame, connection, message log, singleton), MyApiController.java and UIUtils.java are not part of this model.

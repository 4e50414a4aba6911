/**
 * The state of the "Equities Position Sizer" tab (PositionSizerPanel): the
 * text fields the user and the broker callbacks fill in, the account limits
 * cached from the account summary, the flag that keeps the account-summary
 * subscription to one per connection, and the requests the tab sends to the
 * broker, which are recorded rather than performed.
 */
module Panel {
  import opened Wrappers
  import opened Sizing
  import opened ContractInfo

  /** What a text field holds, as far as NumberFormat.parse is concerned. */
  datatype Text = Blank | Num(value: real) | Junk

  /** The number a field parses to; None is a ParseException. */
  function Value(t: Text): Option<real> {
    if t.Num? then Some(t.value) else None
  }

  /** The account-summary tags the tab tells apart; OtherTag is every remaining one. */
  datatype SummaryTag = NetLiquidation | ExcessLiquidity | TotalCashValue | BuyingPower | OtherTag

  /** Tick types of top-of-market price data; OtherTick is every remaining one. */
  datatype TickType = Last | Close | OtherTick

  /** The four fields the user can type into; the contract and the two outputs are disabled. */
  datatype Field = NetLiquidationField | CurrentPriceField | RiskField | StopLossField

  /** A call the tab makes on the broker API controller. */
  datatype Request =
    | AccountSummary(group: string, tags: seq<SummaryTag>)
    | QueryDisplayGroups
    | SubscribeToGroupEvents(groupId: int)
    | TopMktData(contract: Contract, genericTicks: string, snapshot: bool)
    | ContractDetails(contract: Contract)

  /** The one account-summary subscription the tab ever asks for. */
  const SummaryRequest: Request :=
    AccountSummary("All", [NetLiquidation, ExcessLiquidity, TotalCashValue, BuyingPower])

  /** How many account-summary subscriptions a run of requests holds. */
  function SummaryRequests(rs: seq<Request>): nat {
    if rs == [] then 0
    else SummaryRequests(rs[..|rs| - 1]) + (if rs[|rs| - 1].AccountSummary? then 1 else 0)
  }

  lemma {:induction false} SummaryRequestsAppend(a: seq<Request>, b: seq<Request>)
    ensures SummaryRequests(a + b) == SummaryRequests(a) + SummaryRequests(b)
  {
    if b != [] {
      SummaryRequestsAppend(a, b[..|b| - 1]);
      assert (a + b)[..|a + b| - 1] == a + b[..|b| - 1];
    } else {
      assert a + b == a;
    }
  }

  /** What a refresh adds: the summary subscription unless it was already sent, then the display-group query. */
  function RefreshAdds(summaryRequested: bool): seq<Request> {
    (if summaryRequested then [] else [SummaryRequest]) + [QueryDisplayGroups]
  }

  /** The requests after a refresh for a selected account. */
  function Refresh(rs: seq<Request>, summaryRequested: bool): (after: seq<Request>)
    ensures |after| > |rs| && after[..|rs|] == rs && after[|after| - 1] == QueryDisplayGroups
  {
    rs + RefreshAdds(summaryRequested)
  }

  /** A refresh adds one summary subscription to any suffix of the requests, unless one was already sent. */
  lemma RefreshCount(rs: seq<Request>, summaryRequested: bool, start: nat)
    requires start <= |rs|
    ensures SummaryRequests(Refresh(rs, summaryRequested)[start..]) ==
            SummaryRequests(rs[start..]) + (if summaryRequested then 0 else 1)
  {
    var added := RefreshAdds(summaryRequested);
    assert Refresh(rs, summaryRequested)[start..] == rs[start..] + added;
    SummaryRequestsAppend(rs[start..], added);
    if !summaryRequested {
      assert added == [SummaryRequest, QueryDisplayGroups];
      assert added[..1] == [SummaryRequest];
      assert [SummaryRequest][..0] == [];
      assert SummaryRequests([SummaryRequest]) == 1;
      assert SummaryRequests(added) == 1;
    } else {
      assert added == [QueryDisplayGroups];
      assert added[..0] == [];
    }
  }

  class PositionSizerPanel {
    var accounts: seq<string>      // the account list, in the order received
    var selectedIndex: int         // the list's selection, -1 when nothing is selected
    var selectedAccount: string    // the account whose summary updates are accepted

    var netLiquidation: Text
    var currentPrice: Text
    var riskPercent: Text
    var stopLoss: Text
    var sharesToBuy: Option<int>   // None while the output field is empty
    var valueOfShares: Option<real>
    var tier: Tier                 // background of the two output fields

    var wasAcctSummaryRequested: bool
    var excessLiquidity: real
    var totalCashValue: real
    var buyingPower: real

    var requests: seq<Request>     // calls made on the broker API, oldest first
    var notices: seq<CalcError>    // messages shown for failed calculations
    ghost var connectionStart: nat // index into requests where the current connection began

    /**
     * The selection points into the list, and since the current connection
     * began exactly one account-summary subscription has gone out if the
     * flag is set and none otherwise.
     */
    ghost predicate Valid()
      reads this
    {
      -1 <= selectedIndex < |accounts| &&
      connectionStart <= |requests| &&
      SummaryRequests(requests[connectionStart..]) == (if wasAcctSummaryRequested then 1 else 0)
    }

    function CachedLimits(): Limits
      reads this
    {
      Limits(buyingPower, excessLiquidity, totalCashValue)
    }

    constructor ()
      ensures Valid()
      ensures accounts == [] && selectedIndex == -1 && selectedAccount == ""
      ensures netLiquidation == Blank && currentPrice == Blank && riskPercent == Num(0.5) && stopLoss == Blank
      ensures sharesToBuy == None && valueOfShares == None && tier == Default
      ensures !wasAcctSummaryRequested && CachedLimits() == NoLimits
      ensures requests == [] && notices == []
    {
      accounts, selectedIndex, selectedAccount := [], -1, "";
      netLiquidation, currentPrice, riskPercent, stopLoss := Blank, Blank, Num(0.5), Blank;
      sharesToBuy, valueOfShares, tier := None, None, Default;
      wasAcctSummaryRequested := false;
      excessLiquidity, totalCashValue, buyingPower := Unknown, Unknown, Unknown;
      requests, notices := [], [];
      connectionStart := 0;
    }

    /** Appending a request that is not a summary subscription keeps Valid. */
    lemma AppendKeepsCount(rs: seq<Request>, more: seq<Request>)
      requires connectionStart <= |rs|
      requires forall i :: 0 <= i < |more| ==> !more[i].AccountSummary?
      ensures SummaryRequests((rs + more)[connectionStart..]) == SummaryRequests(rs[connectionStart..])
    {
      assert (rs + more)[connectionStart..] == rs[connectionStart..] + more;
      SummaryRequestsAppend(rs[connectionStart..], more);
      NoSummaries(more);
    }

    lemma {:induction false} NoSummaries(rs: seq<Request>)
      requires forall i :: 0 <= i < |rs| ==> !rs[i].AccountSummary?
      ensures SummaryRequests(rs) == 0
    {
      if rs != [] {
        NoSummaries(rs[..|rs| - 1]);
      }
    }

    /**
     * The Refresh button and every selection change: for a selected,
     * non-empty account name, remember the account, subscribe to its
     * summary once per connection, and query the display groups.
     */
    method RequestData()
      requires Valid()
      modifies this`selectedAccount, this`wasAcctSummaryRequested, this`requests
      ensures Valid()
      ensures if old(selectedIndex) == -1 || accounts[selectedIndex] == [] then
          selectedAccount == old(selectedAccount) && wasAcctSummaryRequested == old(wasAcctSummaryRequested) &&
          requests == old(requests)
        else
          selectedAccount == accounts[selectedIndex] && wasAcctSummaryRequested &&
          requests == Refresh(old(requests), old(wasAcctSummaryRequested))
    {
      var i := selectedIndex;
      if i != -1 {
        var selAcct := accounts[i];
        if selAcct != [] {
          selectedAccount := selAcct;
          RefreshCount(requests, wasAcctSummaryRequested, connectionStart);
          requests := Refresh(requests, wasAcctSummaryRequested);
          wasAcctSummaryRequested := true;
        }
      }
    }

    /** A new connection may subscribe to the account summary again. */
    method Disconnected()
      requires Valid()
      modifies this`wasAcctSummaryRequested, this`connectionStart
      ensures Valid()
      ensures !wasAcctSummaryRequested && connectionStart == |requests|
    {
      wasAcctSummaryRequested := false;
      connectionStart := |requests|;
    }

    /**
     * The account list arrives: it is appended to the list the tab already
     * holds, and a single account is selected, which refreshes the data
     * when the selection changes.
     */
    method Activated(list: seq<string>)
      requires Valid()
      modifies this`accounts, this`selectedIndex, this`selectedAccount, this`wasAcctSummaryRequested, this`requests
      ensures Valid()
      ensures accounts == old(accounts) + list
      ensures selectedIndex == if |list| == 1 then 0 else old(selectedIndex)
      ensures if |list| == 1 && old(selectedIndex) != 0 && accounts[0] != [] then
          selectedAccount == accounts[0] && wasAcctSummaryRequested &&
          requests == Refresh(old(requests), old(wasAcctSummaryRequested))
        else
          selectedAccount == old(selectedAccount) && wasAcctSummaryRequested == old(wasAcctSummaryRequested) &&
          requests == old(requests)
    {
      accounts := accounts + list;
      if |list| == 1 && selectedIndex != 0 {
        selectedIndex := 0;
        RequestData();
      }
    }

    /** The user changes the list selection; a change refreshes the data. */
    method SelectAccount(i: int)
      requires Valid() && -1 <= i < |accounts|
      modifies this`selectedIndex, this`selectedAccount, this`wasAcctSummaryRequested, this`requests
      ensures Valid() && selectedIndex == i
      ensures if i != old(selectedIndex) && i != -1 && accounts[i] != [] then
          selectedAccount == accounts[i] && wasAcctSummaryRequested &&
          requests == Refresh(old(requests), old(wasAcctSummaryRequested))
        else
          selectedAccount == old(selectedAccount) && wasAcctSummaryRequested == old(wasAcctSummaryRequested) &&
          requests == old(requests)
    {
      if i != selectedIndex {
        selectedIndex := i;
        RequestData();
      }
    }

    /**
     * One account-summary value. Only the selected account's values are
     * taken, and each tag updates its own field and nothing else. The value
     * is parsed (None when Double.parseDouble throws) only for the four
     * tags the tab uses; thrown says that the exception escaped.
     */
    method AccountSummaryValue(account: string, tag: SummaryTag, value: Option<real>) returns (thrown: bool)
      requires Valid()
      modifies this`netLiquidation, this`excessLiquidity, this`totalCashValue, this`buyingPower
      ensures Valid()
      ensures thrown <==> account == selectedAccount && tag != OtherTag && value.None?
      ensures netLiquidation ==
        if account == selectedAccount && tag == NetLiquidation && value.Some? then Num(value.value) else old(netLiquidation)
      ensures excessLiquidity ==
        if account == selectedAccount && tag == ExcessLiquidity && value.Some? then value.value else old(excessLiquidity)
      ensures totalCashValue ==
        if account == selectedAccount && tag == TotalCashValue && value.Some? then value.value else old(totalCashValue)
      ensures buyingPower ==
        if account == selectedAccount && tag == BuyingPower && value.Some? then value.value else old(buyingPower)
    {
      thrown := false;
      if account == selectedAccount {
        if tag != OtherTag && value.None? {
          thrown := true;
        } else if tag == NetLiquidation {
          netLiquidation := Num(value.value);
        } else if tag == ExcessLiquidity {
          excessLiquidity := value.value;
        } else if tag == TotalCashValue {
          totalCashValue := value.value;
        } else if tag == BuyingPower {
          buyingPower := value.value;
        }
      }
    }

    /** The display groups, most used first: follow the first one. */
    method DisplayGroupList(groups: seq<int>)
      requires Valid()
      modifies this`requests
      ensures Valid()
      ensures requests == old(requests) + if |groups| > 0 then [SubscribeToGroupEvents(groups[0])] else []
    {
      if |groups| > 0 {
        var more := [SubscribeToGroupEvents(groups[0])];
        AppendKeepsCount(requests, more);
        requests := requests + more;
      }
    }

    /**
     * The display group now shows another contract: clear the price and
     * stop-loss fields, then ask for a market-data snapshot and the
     * contract's details. thrown says that parseInt rejected the id.
     */
    method DisplayGroupUpdated(info: string) returns (thrown: bool)
      requires Valid()
      modifies this`currentPrice, this`stopLoss, this`requests
      ensures Valid()
      ensures thrown <==> ParseContractInfo(info) == BadConid
      ensures match ParseContractInfo(info)
        case Parsed(c) =>
          currentPrice == Blank && stopLoss == Blank &&
          requests == old(requests) + [TopMktData(c, "", true), ContractDetails(c)]
        case _ =>
          currentPrice == old(currentPrice) && stopLoss == old(stopLoss) && requests == old(requests)
    {
      thrown := false;
      match ParseContractInfo(info)
      case NoParts =>
      case BadConid =>
        thrown := true;
      case Parsed(c) =>
        currentPrice := Blank;
        stopLoss := Blank;
        var more := [TopMktData(c, "", true), ContractDetails(c)];
        AppendKeepsCount(requests, more);
        requests := requests + more;
    }

    /** The user types into one of the editable fields; only that field changes. */
    method EditField(f: Field, t: Text)
      requires Valid()
      modifies this`netLiquidation, this`currentPrice, this`riskPercent, this`stopLoss
      ensures Valid()
      ensures netLiquidation == if f == NetLiquidationField then t else old(netLiquidation)
      ensures currentPrice == if f == CurrentPriceField then t else old(currentPrice)
      ensures riskPercent == if f == RiskField then t else old(riskPercent)
      ensures stopLoss == if f == StopLossField then t else old(stopLoss)
    {
      match f
      case NetLiquidationField => netLiquidation := t;
      case CurrentPriceField => currentPrice := t;
      case RiskField => riskPercent := t;
      case StopLossField => stopLoss := t;
    }

    /** The market-data price: the last trade always, the close only into an empty field. */
    method TickPrice(tickType: TickType, price: real)
      requires Valid()
      modifies this`currentPrice, this`stopLoss
      ensures Valid()
      ensures if tickType == Last || (tickType == Close && old(currentPrice) == Blank) then
          currentPrice == Num(price) && stopLoss == Num(price)
        else
          currentPrice == old(currentPrice) && stopLoss == old(stopLoss)
    {
      if tickType == Last {
        UpdatePrice(price);
      } else if tickType == Close {
        if currentPrice == Blank {
          UpdatePrice(price);
        }
      }
    }

    /** The price becomes both the current price and the suggested stop-loss. */
    method UpdatePrice(price: real)
      requires Valid()
      modifies this`currentPrice, this`stopLoss
      ensures Valid()
      ensures currentPrice == Num(price) && stopLoss == Num(price)
    {
      currentPrice := Num(price);
      stopLoss := Num(price);
    }

    /**
     * The Calculate button: size the position from the four fields and the
     * cached limits, or show a message and leave the outputs as they were.
     */
    method Calculate()
      requires Valid()
      modifies this`sharesToBuy, this`valueOfShares, this`tier, this`notices
      ensures Valid()
      ensures match Size(Value(netLiquidation), Value(currentPrice), Value(riskPercent), Value(stopLoss), CachedLimits())
        case Success(s) =>
          sharesToBuy == Some(s.shares) && valueOfShares == Some(s.value) && tier == s.tier && notices == old(notices)
        case Failure(e) =>
          sharesToBuy == old(sharesToBuy) && valueOfShares == old(valueOfShares) && tier == old(tier) &&
          notices == old(notices) + [e]
    {
      var r := Size(Value(netLiquidation), Value(currentPrice), Value(riskPercent), Value(stopLoss), CachedLimits());
      match r
      case Success(s) =>
        sharesToBuy := Some(s.shares);
        valueOfShares := Some(s.value);
        tier := s.tier;
      case Failure(e) =>
        notices := notices + [e];
    }
  }

  /**
   * One account: the selection made by the account list refreshes, a second
   * refresh only queries the display groups, and after a disconnect the
   * summary subscription goes out again.
   */
  method ReconnectScenario() returns (rs: seq<Request>)
    ensures rs == [SummaryRequest, QueryDisplayGroups, QueryDisplayGroups, SummaryRequest, QueryDisplayGroups]
  {
    var panel := new PositionSizerPanel();
    panel.Activated(["DU12345"]);
    assert panel.requests == [SummaryRequest, QueryDisplayGroups];
    panel.RequestData();
    panel.Disconnected();
    panel.RequestData();
    rs := panel.requests;
  }

  /**
   * A close tick fills the empty price field, a second close tick is
   * ignored, and a last tick always wins; the stop-loss follows the price.
   */
  method TickScenario() returns (price: Text, stop: Text)
    ensures price == Num(51.0) && stop == Num(51.0)
  {
    var panel := new PositionSizerPanel();
    panel.TickPrice(Close, 50.0);
    panel.TickPrice(Close, 49.0);
    assert panel.currentPrice == Num(50.0);
    panel.TickPrice(Last, 51.0);
    price, stop := panel.currentPrice, panel.stopLoss;
  }

  /**
   * Right after a price tick the stop-loss equals the price, so the
   * calculation is rejected and the outputs stay empty.
   */
  method CalculateAfterTickScenario() returns (shares: Option<int>, notices: seq<CalcError>)
    ensures shares == None && notices == [InvalidInput]
  {
    var panel := AccountWithNetLiquidation();
    panel.TickPrice(Last, 51.0);
    CalculateRejected(panel);
    shares, notices := panel.sharesToBuy, panel.notices;
  }

  /** With the stop-loss equal to the price, Calculate only adds a notice. */
  method CalculateRejected(panel: PositionSizerPanel)
    requires panel.Valid()
    requires panel.netLiquidation == Num(10000.0) && panel.riskPercent == Num(0.5)
    requires panel.currentPrice == Num(51.0) && panel.stopLoss == Num(51.0)
    modifies panel`sharesToBuy, panel`valueOfShares, panel`tier, panel`notices
    ensures panel.notices == old(panel.notices) + [InvalidInput] && panel.sharesToBuy == old(panel.sharesToBuy)
  {
    assert Rejects(10000.0, 51.0, 0.5, 51.0);
    panel.Calculate();
  }

  /**
   * A fresh tab whose single account has been selected and whose net
   * liquidation value of 10000 has arrived.
   */
  method AccountWithNetLiquidation() returns (panel: PositionSizerPanel)
    ensures fresh(panel) && panel.Valid()
    ensures panel.netLiquidation == Num(10000.0) && panel.riskPercent == Num(0.5) && panel.CachedLimits() == NoLimits
    ensures panel.currentPrice == Blank && panel.stopLoss == Blank
    ensures panel.sharesToBuy == None && panel.valueOfShares == None && panel.tier == Default && panel.notices == []
  {
    var account;
    panel, account := AccountSelected();
    var thrown := panel.AccountSummaryValue(account, NetLiquidation, Some(10000.0));
  }

  /** A fresh tab whose account list holds one account, which is therefore selected. */
  method AccountSelected() returns (panel: PositionSizerPanel, account: string)
    ensures fresh(panel) && panel.Valid() && panel.selectedAccount == account
    ensures panel.netLiquidation == Blank && panel.riskPercent == Num(0.5) && panel.CachedLimits() == NoLimits
    ensures panel.currentPrice == Blank && panel.stopLoss == Blank
    ensures panel.sharesToBuy == None && panel.valueOfShares == None && panel.tier == Default && panel.notices == []
  {
    panel := new PositionSizerPanel();
    account := "DU12345";
    panel.Activated([account]);
  }

  /**
   * After a tick the user moves the stop-loss one dollar below the price;
   * half a percent of 10000 then buys 50 shares worth 2500, and with no
   * limits known the fields keep their default colour.
   */
  method SizeAfterEditScenario() returns (shares: Option<int>, value: Option<real>, tier: Tier)
    ensures shares == Some(50) && value == Some(2500.0) && tier == Default
  {
    var panel := AccountWithNetLiquidation();
    panel.TickPrice(Last, 50.0);
    panel.EditField(StopLossField, Num(49.0));
    CalculateSized(panel);
    shares, value, tier := panel.sharesToBuy, panel.valueOfShares, panel.tier;
  }

  /** With the stop one dollar below a price of 50, Calculate shows Compute's sizing. */
  method CalculateSized(panel: PositionSizerPanel)
    requires panel.Valid() && panel.CachedLimits() == NoLimits
    requires panel.netLiquidation == Num(10000.0) && panel.riskPercent == Num(0.5)
    requires panel.currentPrice == Num(50.0) && panel.stopLoss == Num(49.0)
    modifies panel`sharesToBuy, panel`valueOfShares, panel`tier, panel`notices
    ensures panel.sharesToBuy == Some(50) && panel.valueOfShares == Some(2500.0) && panel.tier == Default
  {
    SizingExample();
    assert !Rejects(10000.0, 50.0, 0.5, 49.0);
    panel.Calculate();
  }
}

/** The order list screen (screens/MyOrdersScreen.tsx): the history split into
    ongoing and finished orders, the tab that picks one of them, and what
    clicking an order does. */
module MyOrders {
  import opened Types
  import Seqs

  /** `![COMPLETED, CANCELLED].includes(o.status)` */
  predicate IsOngoing(o: Order)
  {
    !IsTerminal(o.status)
  }

  /** `[COMPLETED, CANCELLED].includes(o.status)` */
  predicate IsFinished(o: Order)
  {
    IsTerminal(o.status)
  }

  /** `ongoingOrders` */
  function OngoingOrders(history: seq<Order>): (r: seq<Order>)
    ensures forall k :: 0 <= k < |r| ==> !IsTerminal(r[k].status)
    ensures forall i :: 0 <= i < |history| && !IsTerminal(history[i].status) ==> history[i] in r
    ensures |r| <= |history|
  {
    Seqs.Filter(history, IsOngoing)
  }

  /** `completedOrCancelledOrders` */
  function FinishedOrders(history: seq<Order>): (r: seq<Order>)
    ensures forall k :: 0 <= k < |r| ==> IsTerminal(r[k].status)
    ensures forall i :: 0 <= i < |history| && IsTerminal(history[i].status) ==> history[i] in r
    ensures |r| <= |history|
  {
    Seqs.Filter(history, IsFinished)
  }

  /** The two lists split the history: together they hold each order exactly
      as often as the history does, and their lengths add up to its length. */
  lemma ListsPartitionHistory(history: seq<Order>)
    ensures |OngoingOrders(history)| + |FinishedOrders(history)| == |history|
    ensures multiset(OngoingOrders(history)) + multiset(FinishedOrders(history)) == multiset(history)
  {
    Seqs.FilterPartition(history, IsOngoing, IsFinished);
  }

  /** Both lists keep the history's order. */
  lemma ListsKeepHistoryOrder(history: seq<Order>)
    ensures exists idx :: Seqs.IsEmbedding(OngoingOrders(history), history, idx)
    ensures exists idx :: Seqs.IsEmbedding(FinishedOrders(history), history, idx)
  {
    Seqs.FilterPreservesOrder(history, IsOngoing);
    Seqs.FilterPreservesOrder(history, IsFinished);
    assert Seqs.IsEmbedding(OngoingOrders(history), history, Seqs.FilterIndices(history, IsOngoing));
    assert Seqs.IsEmbedding(FinishedOrders(history), history, Seqs.FilterIndices(history, IsFinished));
  }

  datatype Tab = OngoingTab | PastTab

  /** `ordersToDisplay` */
  function OrdersToDisplay(tab: Tab, history: seq<Order>): (r: seq<Order>)
    ensures tab == OngoingTab ==> r == OngoingOrders(history)
    ensures tab == PastTab ==> r == FinishedOrders(history)
  {
    if tab == OngoingTab then OngoingOrders(history) else FinishedOrders(history)
  }

  /** `order.id.slice(-6)` */
  function ShortId(id: string): (r: string)
    ensures |r| == if |id| < 6 then |id| else 6
    ensures r == id[|id| - |r|..]
  {
    if |id| <= 6 then id else id[|id| - 6..]
  }

  /** What clicking an order does: open its live tracking, or show a notice. */
  datatype ClickAction = Navigate(path: string) | Alert(message: string)

  const TrackingPrefix := "/tracking/"

  /** `handleOrderClick(order)` */
  function HandleOrderClick(o: Order): (a: ClickAction)
    ensures a.Navigate? <==> !IsTerminal(o.status)
    ensures a.Navigate? ==> a.path == TrackingPrefix + o.id
    ensures o.status == Completed ==> a == Alert("Viewing details for completed order #" + ShortId(o.id))
    ensures o.status == Cancelled ==> a == Alert("Order #" + ShortId(o.id) + " was cancelled.")
  {
    if IsOngoing(o) then Navigate(TrackingPrefix + o.id)
    else if o.status == Completed then Alert("Viewing details for completed order #" + ShortId(o.id))
    else Alert("Order #" + ShortId(o.id) + " was cancelled.")
  }

  /** Every order shown on the ongoing tab opens its tracking page, and no
      order on the past tab does. */
  lemma TabsAgreeWithClicks(history: seq<Order>)
    ensures forall k :: 0 <= k < |OngoingOrders(history)| ==> HandleOrderClick(OngoingOrders(history)[k]).Navigate?
    ensures forall k :: 0 <= k < |FinishedOrders(history)| ==> HandleOrderClick(FinishedOrders(history)[k]).Alert?
  {
  }

  /** Whichever tab is selected, clicking a listed order opens tracking exactly
      when the ongoing tab is shown, and the two tabs together list the whole
      history, each order as often as it occurs there. */
  lemma DisplayedOrdersAgreeWithTab(history: seq<Order>)
    ensures forall tab, o :: o in OrdersToDisplay(tab, history) ==>
              (HandleOrderClick(o).Navigate? <==> tab == OngoingTab)
    ensures multiset(OrdersToDisplay(OngoingTab, history)) + multiset(OrdersToDisplay(PastTab, history))
            == multiset(history)
  {
    ListsPartitionHistory(history);
  }
}

/** client/src/components/DoctorDashboard.js: the risk and priority classifiers, the counters
    above the notification list, the response rate, and the blank-response guard. A list item
    carries the risk score, priority level and read time the listing returns; None stands for
    a null or absent value. */
module DoctorDashboard {
  import opened Js

  datatype Item = Item(risk: Option<int>, priority: Option<int>, readAt: Option<int>)

  /** `risk_score || 0`. */
  function ShownRisk(x: Item): int {
    x.risk.GetOr(0)
  }

  /** `priority_level || 5`: a missing or zero priority shows as 5. */
  function ShownPriority(x: Item): int {
    if x.priority.Some? && x.priority.value != 0 then x.priority.value else 5
  }

  // ---------------------------------------------------------------------------------------
  // Classifiers

  const RiskRed := "text-red-600 bg-red-50 border-red-200"
  const RiskOrange := "text-orange-600 bg-orange-50 border-orange-200"
  const RiskYellow := "text-yellow-600 bg-yellow-50 border-yellow-200"
  const RiskGreen := "text-green-600 bg-green-50 border-green-200"

  /** getRiskColor. */
  function RiskColor(riskScore: int): string {
    if riskScore >= 8 then RiskRed
    else if riskScore >= 6 then RiskOrange
    else if riskScore >= 4 then RiskYellow
    else RiskGreen
  }

  datatype Icon = AlertTriangle | Zap | Activity | CheckCircle

  /** getRiskIcon. */
  function RiskIcon(riskScore: int): Icon {
    if riskScore >= 8 then AlertTriangle
    else if riskScore >= 6 then Zap
    else if riskScore >= 4 then Activity
    else CheckCircle
  }

  /** The colour bands: 8 and above red, 6 to 7 orange, 4 to 5 yellow, below 4 green; a
      higher score never gets a milder colour. */
  lemma RiskColorBands(r: int, s: int)
    ensures RiskColor(r) == RiskRed <==> r >= 8
    ensures RiskColor(r) == RiskOrange <==> 6 <= r < 8
    ensures RiskColor(r) == RiskYellow <==> 4 <= r < 6
    ensures RiskColor(r) == RiskGreen <==> r < 4
    ensures r <= s && RiskColor(r) == RiskRed ==> RiskColor(s) == RiskRed
    ensures r <= s && RiskColor(s) == RiskGreen ==> RiskColor(r) == RiskGreen
  {
  }

  /** The icon uses exactly the colour's thresholds: two scores share an icon iff they
      share a colour. */
  lemma RiskIconMatchesColor(r: int, s: int)
    ensures RiskIcon(r) == RiskIcon(s) <==> RiskColor(r) == RiskColor(s)
  {
  }

  /** getPriorityText. */
  function PriorityText(priorityLevel: int): string {
    if priorityLevel <= 2 then "CRITICAL"
    else if priorityLevel <= 3 then "HIGH"
    else if priorityLevel <= 4 then "MEDIUM"
    else "LOW"
  }

  /** getPriorityColor. */
  function PriorityColor(priorityLevel: int): string {
    if priorityLevel <= 2 then "text-red-600 bg-red-100"
    else if priorityLevel <= 3 then "text-orange-600 bg-orange-100"
    else if priorityLevel <= 4 then "text-yellow-600 bg-yellow-100"
    else "text-green-600 bg-green-100"
  }

  /** 2 and below is CRITICAL, 3 HIGH, 4 MEDIUM, 5 and above LOW, and the colour follows the
      same bands; an item without a priority shows as LOW. */
  lemma PriorityBands(p: int, q: int, x: Item)
    ensures PriorityText(p) == "CRITICAL" <==> p <= 2
    ensures PriorityText(p) == "HIGH" <==> p == 3
    ensures PriorityText(p) == "MEDIUM" <==> p == 4
    ensures PriorityText(p) == "LOW" <==> p >= 5
    ensures PriorityColor(p) == PriorityColor(q) <==> PriorityText(p) == PriorityText(q)
    ensures x.priority.None? ==> PriorityText(ShownPriority(x)) == "LOW"
  {
  }

  // ---------------------------------------------------------------------------------------
  // Counters

  /** `filter(n => !n.read_at).length`. */
  function UnreadCount(items: seq<Item>): (r: nat)
    ensures r <= |items|
  {
    if items == [] then 0
    else (if items[0].readAt.None? then 1 else 0) + UnreadCount(items[1..])
  }

  predicate IsCritical(x: Item) { ShownRisk(x) >= 8 }

  predicate IsHighRisk(x: Item) { ShownRisk(x) >= 6 && ShownRisk(x) < 8 }

  function CriticalCount(items: seq<Item>): nat {
    if items == [] then 0
    else (if IsCritical(items[0]) then 1 else 0) + CriticalCount(items[1..])
  }

  function HighRiskCount(items: seq<Item>): nat {
    if items == [] then 0
    else (if IsHighRisk(items[0]) then 1 else 0) + HighRiskCount(items[1..])
  }

  /** An item is critical or high-risk, never both, and an item without a risk score is
      neither: it shows as 0, green. */
  lemma RiskClasses(x: Item)
    ensures !(IsCritical(x) && IsHighRisk(x))
    ensures IsCritical(x) <==> RiskColor(ShownRisk(x)) == RiskRed
    ensures IsHighRisk(x) <==> RiskColor(ShownRisk(x)) == RiskOrange
    ensures x.risk.None? ==> !IsCritical(x) && !IsHighRisk(x) && RiskColor(ShownRisk(x)) == RiskGreen
  {
  }

  /** The critical and the high-risk items are disjoint, so together they never outnumber the
      list. */
  lemma {:induction false} CountsDisjoint(items: seq<Item>)
    ensures CriticalCount(items) + HighRiskCount(items) <= |items|
  {
    if items != [] {
      CountsDisjoint(items[1..]);
    }
  }

  /** The unread count is the number of items without a read time, counted with their
      multiplicity. */
  lemma {:induction false} UnreadCountsUnread(items: seq<Item>)
    ensures UnreadCount(items) == |Unread(items)|
  {
    if items != [] {
      UnreadCountsUnread(items[1..]);
      assert items == [items[0]] + items[1..];
    }
  }

  /** The items without a read time. */
  function Unread(items: seq<Item>): (r: seq<Item>)
    ensures forall x :: x in r <==> x in items && x.readAt.None?
    ensures forall x :: multiset(r)[x] == if x.readAt.None? then multiset(items)[x] else 0
  {
    if items == [] then []
    else
      assert items == [items[0]] + items[1..];
      assert forall x :: x in items <==> x == items[0] || x in items[1..];
      (if items[0].readAt.None? then [items[0]] else []) + Unread(items[1..])
  }

  /** The response rate, `Math.round((length - unread) / length * 100)` or 0 for an empty list,
      in whole percent (halves round up). */
  function ResponseRate(items: seq<Item>): (r: int)
    ensures 0 <= r <= 100
    ensures items == [] ==> r == 0
    ensures items != [] && UnreadCount(items) == 0 ==> r == 100
    ensures items != [] && UnreadCount(items) == |items| ==> r == 0
    ensures items != [] ==> var n := |items|; var read := n - UnreadCount(items);
                            2 * n * r <= 200 * read + n < 2 * n * (r + 1)
  {
    if |items| == 0 then 0
    else
      var n := |items|;
      var read := n - UnreadCount(items);
      var a := 200 * read + n;
      assert 2 * n * (a / (2 * n)) <= a < 2 * n * (a / (2 * n) + 1) by {
        QuotientBounds(a, 2 * n);
      }
      assert && 0 <= a / (2 * n) <= 100
             && (read == n ==> a / (2 * n) == 100)
             && (read == 0 ==> a / (2 * n) == 0) by {
        DivAtMost(a, 2 * n, 100);
        if read == n {
          QuotientIs(a, 2 * n, 100);
        } else if read == 0 {
          QuotientIs(a, 2 * n, 0);
        }
      }
      a / (2 * n)
  }

  lemma MulMono(b: int, x: int, y: int)
    requires b > 0 && x <= y
    ensures b * x <= b * y
  {
  }

  lemma QuotientBounds(a: int, b: int)
    requires b > 0
    ensures b * (a / b) <= a < b * (a / b + 1)
  {
    assert b * (a / b + 1) == b * (a / b) + b;
  }

  lemma DivAtMost(a: int, b: int, c: int)
    requires a >= 0 && b > 0 && a < b * (c + 1)
    ensures 0 <= a / b <= c
  {
    var q := a / b;
    if q > c {
      MulMono(b, c + 1, q);
    }
  }

  lemma QuotientIs(a: int, b: int, q: int)
    requires b > 0 && b * q <= a < b * q + b
    ensures a / b == q
  {
    var r := a / b;
    if r > q {
      MulMono(b, q + 1, r);
    } else if r < q {
      MulMono(b, r + 1, q);
    }
  }

  // ---------------------------------------------------------------------------------------
  // sendResponse

  /** The POST sendResponse makes, or None when the response is refused. */
  datatype RespondRequest = RespondRequest(recordingId: int, response: string)

  function SendResponse(recordingId: int, response: string): (r: Option<RespondRequest>)
    ensures r.None? <==> Blank(response)
    ensures r.Some? ==> r.value == RespondRequest(recordingId, response)
  {
    TrimEmptyIffBlank(response);
    if Trim(response) == "" then None else Some(RespondRequest(recordingId, response))
  }
}

/** The report of one run: the stop reason is printed by Bind or Update and parsed back here, and
    the bound pods are counted per node. */
module Reports {
  import opened Common

  datatype PodPhase = NotRunning | Running

  /** The fields of a pod that the simulator reads or writes, and the containers it passes on. */
  datatype Pod = Pod(
    namespace: string, name: Name, nodeName: Name, phase: PodPhase,
    labels: map<string, string>, annotations: map<string, string>,
    nodeSelector: map<string, string>, containers: seq<string>, schedulerName: string)

  datatype Status = Status(pods: seq<Pod>, stopReason: string)

  datatype Reason = Reason(kind: string, message: string)

  datatype ReplicasOnNode = ReplicasOnNode(nodeName: Name, replicas: int)

  datatype PodReview = PodReview(usName: Name, replicasOnNodes: seq<ReplicasOnNode>)

  datatype Review = Review(desiredReplicas: int, replicas: int, reason: Reason, pods: seq<PodReview>)

  const SCHEDULABLE := "Schedulable"
  const UNSCHEDULABLE := "Unschedulable"
  const ALL_PLACED := "Schedule the number of simulated pods: "

  // ---------------------------------------------------------------- printing and parsing

  /** strings.Split(s, "\n")[0] */
  function FirstLine(s: string): (r: string)
    ensures r <= s && '\n' !in r
    ensures r == s || s[|r|] == '\n'
  {
    if s == [] || s[0] == '\n' then [] else [s[0]] + FirstLine(s[1..])
  }

  /** strings.Index(s, ":"), -1 when there is none */
  function IndexOfColon(s: string): (r: int)
    ensures -1 <= r < |s|
    ensures r == -1 <==> ':' !in s
    ensures r >= 0 ==> s[r] == ':' && ':' !in s[..r]
  {
    if s == [] then -1
    else if s[0] == ':' then 0
    else
      var r := IndexOfColon(s[1..]);
      assert r >= 0 ==> s[..r + 1] == [s[0]] + s[1..][..r];
      if r < 0 then -1 else r + 1
  }

  function TrimLeft(s: string): (r: string)
    ensures |r| <= |s| && r == s[|s| - |r|..]
    ensures r == [] || r[0] != ' '
    ensures forall i | 0 <= i < |s| - |r| :: s[i] == ' '
  {
    if s != [] && s[0] == ' ' then TrimLeft(s[1..]) else s
  }

  function TrimRight(s: string): (r: string)
    ensures r <= s
    ensures r == [] || r[|r| - 1] != ' '
    ensures forall i | |r| <= i < |s| :: s[i] == ' '
  {
    if s != [] && s[|s| - 1] == ' ' then TrimRight(s[..|s| - 1]) else s
  }

  /** strings.Trim(s, " ") */
  function Trim(s: string): string {
    TrimRight(TrimLeft(s))
  }

  /** Trimming cuts spaces off at both ends, all of them, and nothing else. */
  lemma TrimCutsSpaces(s: string)
    ensures exists i, j :: 0 <= i <= j <= |s| && IsTrimmed(s, i, j) && Trim(s) == s[i..j]
  {
    hide TrimLeft, TrimRight;
    var left := TrimLeft(s);
    var right := TrimRight(left);
    var i := |s| - |left|;
    var j := i + |right|;
    assert right == left[..|right|] == s[i..j];
    forall k | j <= k < |s| ensures s[k] == ' ' {
      assert left[k - i] == s[k];
    }
    assert IsTrimmed(s, i, j);
  }

  /** Only spaces outside s[i..j], and none at either end of it. */
  ghost predicate IsTrimmed(s: string, i: nat, j: nat)
    requires i <= j <= |s|
  {
    && (forall k | 0 <= k < i || j <= k < |s| :: s[k] == ' ')
    && (i < j ==> s[i] != ' ' && s[j - 1] != ' ')
  }

  /** A stop reason whose first line has no colon makes the slice expression panic. */
  function GetMainFailReason(message: string): Reason
    requires ':' in FirstLine(message)
  {
    var line := FirstLine(message);
    var colon := IndexOfColon(line);
    Reason(line[..colon], Trim(line[colon + 1..]))
  }

  /** fmt.Sprintf("%v: %v", reason, message) */
  function StopReason(word: string, message: string): string {
    word + ": " + message
  }

  lemma {:induction false} FirstLineAfter(prefix: string, s: string)
    requires '\n' !in prefix
    ensures FirstLine(prefix + s) == prefix + FirstLine(s)
  {
    if prefix == [] {
      assert prefix + s == s;
    } else {
      assert (prefix + s)[1..] == prefix[1..] + s;
      FirstLineAfter(prefix[1..], s);
    }
  }

  lemma {:induction false} ColonAfter(word: string, s: string)
    requires ':' !in word
    ensures IndexOfColon(word + ":" + s) == |word|
  {
    if word == [] {
      assert word + ":" + s == ":" + s;
    } else {
      assert (word + ":" + s)[1..] == word[1..] + ":" + s;
      ColonAfter(word[1..], s);
    }
  }

  lemma TrimSkipsSpace(s: string)
    ensures Trim([' '] + s) == Trim(s)
  {
    assert ([' '] + s)[1..] == s;
  }

  lemma ParseLine(word: string, rest: string, line: string)
    requires ':' !in word && line == word + ":" + rest
    ensures IndexOfColon(line) == |word| && ':' in line
    ensures line[..|word|] == word && line[|word| + 1..] == rest
  {
    ColonAfter(word, rest);
    assert line[|word|] == ':';
  }

  /** Parsing what was printed gives back the reason word and the space-trimmed first line of the
      message, whatever the message holds. */
  lemma PrintThenParse(word: string, message: string)
    requires ':' !in word && '\n' !in word
    ensures ':' in FirstLine(StopReason(word, message))
    ensures GetMainFailReason(StopReason(word, message)) == Reason(word, Trim(FirstLine(message)))
  {
    var rest := FirstLine(message);
    var line := FirstLine(StopReason(word, message));
    assert line == word + ":" + ([' '] + rest) by {
      FirstLineAfter(word + ": ", message);
    }
    ParseLine(word, [' '] + rest, line);
    TrimSkipsSpace(rest);
  }

  /** fmt's %v of a positive int32 */
  function Decimal(n: nat): (s: string)
    ensures |s| >= 1
    ensures forall c | c in s :: '0' <= c <= '9'
  {
    if n < 10 then ['0' + n as char] else Decimal(n / 10) + ['0' + (n % 10) as char]
  }

  lemma {:induction false} FirstLineWhole(s: string)
    requires '\n' !in s
    ensures FirstLine(s) == s
  {
    if s != [] {
      FirstLineWhole(s[1..]);
    }
  }

  /** Reading digits, the first being the most significant. */
  function ValueOf(digits: string): int {
    if digits == [] then 0
    else 10 * ValueOf(digits[..|digits| - 1]) + digits[|digits| - 1] as int - '0' as int
  }

  /** The digits stand for the number, and none of them is a leading zero. */
  lemma {:induction false} DecimalReads(n: nat)
    ensures ValueOf(Decimal(n)) == n
    ensures Decimal(n)[0] == '0' ==> n == 0
  {
    if n < 10 {
      assert Decimal(n)[..0] == [];
    } else {
      DecimalReads(n / 10);
      assert Decimal(n)[..|Decimal(n)| - 1] == Decimal(n / 10);
    }
  }

  lemma {:induction false} DecimalInjective(m: nat, n: nat)
    requires Decimal(m) == Decimal(n)
    ensures m == n
  {
    var a, b := Decimal(m), Decimal(n);
    assert a[|a| - 1] == '0' + (m % 10) as char && b[|b| - 1] == '0' + (n % 10) as char;
    if m >= 10 && n >= 10 {
      assert a[..|a| - 1] == Decimal(m / 10) && b[..|b| - 1] == Decimal(n / 10);
      DecimalInjective(m / 10, n / 10);
    }
  }

  /** What Bind prints when the last replica is bound is parsed back whole. */
  lemma AllPlacedParses(replicas: nat)
    ensures ':' in FirstLine(StopReason(SCHEDULABLE, ALL_PLACED + Decimal(replicas)))
    ensures GetMainFailReason(StopReason(SCHEDULABLE, ALL_PLACED + Decimal(replicas)))
            == Reason(SCHEDULABLE, ALL_PLACED + Decimal(replicas))
  {
    WholeAfter(ALL_PLACED, Decimal(replicas));
  }

  /** What Update prints is parsed back to its reason and the trimmed first line of the message. */
  lemma RefusalParses(message: string)
    ensures ':' in FirstLine(StopReason(UNSCHEDULABLE, message))
    ensures GetMainFailReason(StopReason(UNSCHEDULABLE, message)) == Reason(UNSCHEDULABLE, Trim(FirstLine(message)))
  {
    hide FirstLine, GetMainFailReason, StopReason, Trim;
    PrintThenParse(UNSCHEDULABLE, message);
  }

  lemma WholeAfter(prefix: string, digits: string)
    requires prefix != [] && prefix[0] != ' ' && '\n' !in prefix
    requires digits != [] && forall c | c in digits :: '0' <= c <= '9'
    ensures ':' in FirstLine(StopReason(SCHEDULABLE, prefix + digits))
    ensures GetMainFailReason(StopReason(SCHEDULABLE, prefix + digits)) == Reason(SCHEDULABLE, prefix + digits)
  {
    var message := prefix + digits;
    assert digits[|digits| - 1] in digits;
    assert message[0] == prefix[0] && message[|message| - 1] == digits[|digits| - 1];
    FirstLineWhole(message);
    assert Trim(message) == message;
    PlainWord();
    hide FirstLine, Trim, GetMainFailReason, StopReason;
    PrintThenParse(SCHEDULABLE, message);
  }

  lemma PlainWord()
    ensures ':' !in SCHEDULABLE && '\n' !in SCHEDULABLE
  {
  }

  // ---------------------------------------------------------------- placement histogram

  /** Among the first n pods, those of template j out of `templates` that sit on the node. */
  function CountOn(pods: seq<Pod>, n: nat, templates: nat, j: nat, node: Name): nat
    requires n <= |pods| && templates > 0
  {
    if n == 0 then 0
    else
      CountOn(pods, n - 1, templates, j, node) +
      if (n - 1) % templates == j && pods[n - 1].nodeName == node then 1 else 0
  }

  function InstancesSum(list: seq<ReplicasOnNode>): int {
    if list == [] then 0 else InstancesSum(list[..|list| - 1]) + list[|list| - 1].replicas
  }

  function TotalSum(reviews: seq<PodReview>): int {
    if reviews == [] then 0
    else TotalSum(reviews[..|reviews| - 1]) + InstancesSum(reviews[|reviews| - 1].replicasOnNodes)
  }

  function Names(list: seq<ReplicasOnNode>): set<Name> {
    set e | e in list :: e.nodeName
  }

  /** Each node is listed at most once, a listed node has its exact count, and every node that
      carries a pod of the template is listed. */
  ghost predicate IsHistogram(list: seq<ReplicasOnNode>, pods: seq<Pod>, n: nat, templates: nat, j: nat)
    requires n <= |pods| && templates > 0
  {
    && (forall a, b | 0 <= a < b < |list| :: list[a].nodeName != list[b].nodeName)
    && (forall a | 0 <= a < |list| :: list[a].replicas == CountOn(pods, n, templates, j, list[a].nodeName) >= 1)
    && (forall node | CountOn(pods, n, templates, j, node) > 0 :: node in Names(list))
  }

  lemma {:induction false} InstancesSumUpdate(list: seq<ReplicasOnNode>, k: nat, e: ReplicasOnNode)
    requires k < |list|
    ensures InstancesSum(list[k := e]) == InstancesSum(list) - list[k].replicas + e.replicas
  {
    var front := list[..|list| - 1];
    if k < |front| {
      assert list[k := e][..|list| - 1] == front[k := e];
      InstancesSumUpdate(front, k, e);
    } else {
      assert list[k := e][..|list| - 1] == front;
    }
  }

  lemma {:induction false} TotalSumUpdate(reviews: seq<PodReview>, j: nat, r: PodReview)
    requires j < |reviews|
    ensures TotalSum(reviews[j := r])
            == TotalSum(reviews) - InstancesSum(reviews[j].replicasOnNodes) + InstancesSum(r.replicasOnNodes)
  {
    var front := reviews[..|reviews| - 1];
    if j < |front| {
      assert reviews[j := r][..|reviews| - 1] == front[j := r];
      TotalSumUpdate(front, j, r);
    } else {
      assert reviews[j := r][..|reviews| - 1] == front;
    }
  }

  /** Listing one more pod turns a histogram of n pods into one of n + 1 pods. */
  lemma HistogramGrows(list: seq<ReplicasOnNode>, r: seq<ReplicasOnNode>, pods: seq<Pod>, n: nat, templates: nat)
    requires n < |pods| && templates > 0
    requires IsHistogram(list, pods, n, templates, n % templates)
    requires forall a | 0 <= a < |list| && a < |r| ::
      r[a] == if list[a].nodeName == pods[n].nodeName then list[a].(replicas := list[a].replicas + 1) else list[a]
    requires if pods[n].nodeName in Names(list) then |r| == |list|
             else |r| == |list| + 1 && r[|list|] == ReplicasOnNode(pods[n].nodeName, 1)
    ensures IsHistogram(r, pods, n + 1, templates, n % templates)
  {
    var node := pods[n].nodeName;
    forall a | 0 <= a < |r|
      ensures r[a].replicas == CountOn(pods, n + 1, templates, n % templates, r[a].nodeName) >= 1
    {
    }
    forall a, b | 0 <= a < b < |r| ensures r[a].nodeName != r[b].nodeName {
      assert list[a] in list;
    }
    forall m | CountOn(pods, n + 1, templates, n % templates, m) > 0 ensures m in Names(r) {
      if m in Names(list) {
        var a :| 0 <= a < |list| && list[a].nodeName == m;
        assert r[a] in r;
      } else {
        assert r[|list|] in r;
      }
    }
  }

  /** The inner loop: one more pod of template n % templates. */
  method CountPod(list: seq<ReplicasOnNode>, pods: seq<Pod>, n: nat, templates: nat)
    returns (r: seq<ReplicasOnNode>)
    requires n < |pods| && templates > 0
    requires IsHistogram(list, pods, n, templates, n % templates)
    ensures IsHistogram(r, pods, n + 1, templates, n % templates)
    ensures InstancesSum(r) == InstancesSum(list) + 1
  {
    var nodeName, first := pods[n].nodeName, true;
    r := list;
    for i := 0 to |list|
      invariant |r| == |list|
      invariant forall a | i <= a < |list| :: r[a] == list[a]
      invariant forall a | 0 <= a < i ::
        r[a] == if list[a].nodeName == nodeName then list[a].(replicas := list[a].replicas + 1) else list[a]
      invariant first <==> forall a | 0 <= a < i :: list[a].nodeName != nodeName
      invariant InstancesSum(r) == InstancesSum(list) + if first then 0 else 1
    {
      if r[i].nodeName == nodeName {
        InstancesSumUpdate(r, i, r[i].(replicas := r[i].replicas + 1));
        r := r[i := r[i].(replicas := r[i].replicas + 1)];
        first := false;
      }
    }
    if first {
      assert (r + [ReplicasOnNode(nodeName, 1)])[..|r|] == r;
      r := r + [ReplicasOnNode(nodeName, 1)];
    }
    HistogramGrows(list, r, pods, n, templates);
  }

  /** A pod of another template changes nothing. */
  lemma HistogramSkips(list: seq<ReplicasOnNode>, pods: seq<Pod>, n: nat, templates: nat, j: nat)
    requires n < |pods| && templates > 0 && n % templates != j
    requires IsHistogram(list, pods, n, templates, j)
    ensures IsHistogram(list, pods, n + 1, templates, j)
  {
  }

  /** One review per template, each with the histogram of the template's share of the first n pods. */
  ghost predicate Reviewed(result: seq<PodReview>, templatePods: seq<Pod>, pods: seq<Pod>, n: nat)
    requires n <= |pods|
  {
    && |result| == |templatePods|
    && forall j | 0 <= j < |result| ::
         && result[j].usName == templatePods[j].name
         && IsHistogram(result[j].replicasOnNodes, pods, n, |templatePods|, j)
  }

  lemma ReviewGrows(result: seq<PodReview>, list: seq<ReplicasOnNode>, templatePods: seq<Pod>, pods: seq<Pod>, n: nat)
    requires n < |pods| && templatePods != [] && Reviewed(result, templatePods, pods, n)
    requires IsHistogram(list, pods, n + 1, |templatePods|, n % |templatePods|)
    ensures var j := n % |templatePods|;
            Reviewed(result[j := result[j].(replicasOnNodes := list)], templatePods, pods, n + 1)
  {
    var j := n % |templatePods|;
    forall m | 0 <= m < |result| && m != j
      ensures IsHistogram(result[m].replicasOnNodes, pods, n + 1, |templatePods|, m)
    {
      HistogramSkips(result[m].replicasOnNodes, pods, n, |templatePods|, m);
    }
  }

  lemma ReviewedAt(result: seq<PodReview>, templatePods: seq<Pod>, pods: seq<Pod>, n: nat, j: nat)
    requires n <= |pods| && j < |templatePods| && Reviewed(result, templatePods, pods, n)
    ensures |result| == |templatePods| && IsHistogram(result[j].replicasOnNodes, pods, n, |templatePods|, j)
  {
  }

  /** parsePodsReview: pods are dealt to the templates round-robin and counted per node. */
  method ParsePodsReview(templatePods: seq<Pod>, status: Status) returns (result: seq<PodReview>)
    requires templatePods == [] ==> status.pods == []
    ensures Reviewed(result, templatePods, status.pods, |status.pods|)
    ensures TotalSum(result) == |status.pods|
  {
    var templatesCount := |templatePods|;
    result := [];
    for i := 0 to templatesCount
      invariant |result| == i
      invariant forall j | 0 <= j < i :: result[j] == PodReview(templatePods[j].name, [])
      invariant TotalSum(result) == 0
    {
      assert (result + [PodReview(templatePods[i].name, [])])[..i] == result;
      result := result + [PodReview(templatePods[i].name, [])];
    }
    assert Reviewed(result, templatePods, status.pods, 0);
    result := CountPods(result, templatePods, status);
  }

  /** The counting loop of parsePodsReview. */
  method CountPods(empty: seq<PodReview>, templatePods: seq<Pod>, status: Status) returns (result: seq<PodReview>)
    requires templatePods == [] ==> status.pods == []
    requires Reviewed(empty, templatePods, status.pods, 0) && TotalSum(empty) == 0
    ensures Reviewed(result, templatePods, status.pods, |status.pods|)
    ensures TotalSum(result) == |status.pods|
  {
    hide Reviewed, IsHistogram, CountOn, InstancesSum, TotalSum;
    result := empty;
    var templatesCount := |templatePods|;
    for i := 0 to |status.pods|
      invariant Reviewed(result, templatePods, status.pods, i)
      invariant TotalSum(result) == i
    {
      var j := i % templatesCount;
      ReviewedAt(result, templatePods, status.pods, i, j);
      var list := CountPod(result[j].replicasOnNodes, status.pods, i, templatesCount);
      TotalSumUpdate(result, j, result[j].(replicasOnNodes := list));
      ReviewGrows(result, list, templatePods, status.pods, i);
      result := result[j := result[j].(replicasOnNodes := list)];
    }
  }

  method GetReport(templatePods: seq<Pod>, status: Status, desiredReplicas: int) returns (r: Review)
    requires templatePods == [] ==> status.pods == []
    requires ':' in FirstLine(status.stopReason)
    ensures r.desiredReplicas == desiredReplicas && r.replicas == Int32(|status.pods|)
    ensures r.reason == GetMainFailReason(status.stopReason)
    ensures Reviewed(r.pods, templatePods, status.pods, |status.pods|)
    ensures TotalSum(r.pods) == |status.pods|
  {
    var pods := ParsePodsReview(templatePods, status);
    r := Review(desiredReplicas, Int32(|status.pods|), GetMainFailReason(status.stopReason), pods);
  }
}

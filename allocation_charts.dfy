/** The data behind the admin's allocation charts (src/components/admin/AllocationCharts.tsx): one
    pie slice and one bar per strategy, with shortened bar labels and a cycling colour palette. */
module AllocationCharts {
  import opened Common
  import opened Strategies

  /** `COLORS`: the palette, used in turn by position. */
  const Colors: seq<string> := ["#10b981", "#3b82f6", "#8b5cf6", "#f59e0b", "#ec4899", "#06b6d4"]

  /** The longest name a bar shows whole. */
  const LabelLimit: nat := 15

  /** `COLORS[index % COLORS.length]`. */
  function ColourAt(index: nat): string {
    Colors[index % |Colors|]
  }

  /** Six entries in a row never share a colour, and the palette starts over every six entries. */
  lemma ColoursCycle(i: nat, j: nat)
    ensures ColourAt(i + |Colors|) == ColourAt(i)
    ensures i < j < i + |Colors| ==> ColourAt(i) != ColourAt(j)
  {
    assert |Colors| == 6;
    assert forall a :: 0 <= a < 6 ==> Colors[a][1] == "138fe0"[a];
    assert (i + 6) % 6 == i % 6;
    if i < j < i + 6 {
      assert i % 6 != j % 6;
      assert Colors[i % 6][1] != Colors[j % 6][1];
    }
  }

  /** A bar's label: the name when it has at most 15 characters, otherwise its first 15 characters
      followed by "...". */
  function BarLabel(name: string): (r: string)
    ensures |name| <= LabelLimit ==> r == name
    ensures |name| > LabelLimit ==> |r| == LabelLimit + 3 && r[..LabelLimit] == name[..LabelLimit] && r[LabelLimit..] == "..."
  {
    if |name| > LabelLimit then name[..LabelLimit] + "..." else name
  }

  /** A label never runs past 18 characters, and two names keep distinct labels unless they agree
      on their first 15 characters. */
  lemma BarLabelBounded(a: string, b: string)
    ensures |BarLabel(a)| <= LabelLimit + 3
    ensures BarLabel(a) == BarLabel(b) ==> a == b || (|a| > LabelLimit && |b| > LabelLimit && a[..LabelLimit] == b[..LabelLimit])
  {
    if BarLabel(a) == BarLabel(b) && |a| > LabelLimit && |b| > LabelLimit {
      assert a[..LabelLimit] == BarLabel(a)[..LabelLimit] == BarLabel(b)[..LabelLimit] == b[..LabelLimit];
    }
  }

  datatype PieSlice = PieSlice(name: string, value: int)
  datatype Bar = Bar(name: string, roi: int, category: string)

  /** `pieData`: one slice per strategy, in order, sized by its deployed capital. */
  function PieData(ss: seq<Strategy>): (r: seq<PieSlice>)
    ensures |r| == |ss|
    ensures forall k :: 0 <= k < |ss| ==> r[k].name == ss[k].name && r[k].value == ss[k].totalCapitalDeployed
  {
    if ss == [] then [] else [PieSlice(ss[0].name, ss[0].totalCapitalDeployed)] + PieData(ss[1..])
  }

  /** `barData`: one bar per strategy, in order, at its displayed ROI and in its category. */
  function BarData(ss: seq<Strategy>): (r: seq<Bar>)
    ensures |r| == |ss|
    ensures forall k :: 0 <= k < |ss| ==>
              r[k].name == BarLabel(ss[k].name) && r[k].roi == ss[k].conservativeROI && r[k].category == ss[k].category
  {
    if ss == [] then [] else [Bar(BarLabel(ss[0].name), ss[0].conservativeROI, ss[0].category)] + BarData(ss[1..])
  }

  datatype Charts = Charts(pie: seq<PieSlice>, bars: seq<Bar>)

  /** The component renders nothing for a missing or empty list, and otherwise both charts over
      the same strategies. */
  function ChartsFor(strategies: Option<seq<Strategy>>): (r: Option<Charts>)
    ensures r.None? <==> strategies.None? || strategies.value == []
    ensures r.Some? ==> |r.value.pie| == |r.value.bars| == |strategies.value| > 0
  {
    if strategies.None? || strategies.value == [] then None
    else Some(Charts(PieData(strategies.value), BarData(strategies.value)))
  }
}

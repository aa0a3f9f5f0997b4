/** The landing page's canvas and search box (frontend/static/frontend/js/components/Particles.jsx):
    each frame, the shape points within 220 px of an active mouse become candidates; the
    nearest of them (at most 15) are joined to the mouse and the nearest four highlighted; a
    shape brightens with the closeness of its near points. The shapes' random motion is not
    modelled: a frame is given as the distances of each shape's points to the mouse. */
module Particles {
  import opened Seqs
  import opened Text

  const ConnectRadius := 220.0
  const MaxConnections := 15
  const MinConnections := 10
  const HighlightCount := 4
  const AlphaBoost := 1.6
  const SearchAlertPrefix := "Searching for: "

  /** An entry of `allClosestPoints`: which shape and point, and its distance to the mouse. */
  datatype Candidate = Candidate(shape: nat, point: nat, distance: real)

  predicate SortedByDistance(s: seq<Candidate>) {
    forall i, j :: 0 <= i < j < |s| ==> s[i].distance <= s[j].distance
  }

  /** In a sorted list no element is nearer than the first. */
  lemma HeadIsNearest(s: seq<Candidate>, x: Candidate)
    requires SortedByDistance(s) && s != [] && x in s
    ensures s[0].distance <= x.distance
  {
  }

  /** `c` placed after every element of the sorted `s` that is not farther than it. */
  function Insert(c: Candidate, s: seq<Candidate>): (r: seq<Candidate>)
    requires SortedByDistance(s)
    ensures |r| == |s| + 1
    ensures forall x :: x in r ==> x == c || x in s
    ensures SortedByDistance(r)
    ensures multiset(r) == multiset(s) + multiset{c}
  {
    if s == [] then [c]
    else if c.distance < s[0].distance then
      assert forall x :: x in s ==> s[0].distance <= x.distance by {
        forall x | x in s { HeadIsNearest(s, x); }
      }
      [c] + s
    else
      var rest := Insert(c, s[1..]);
      assert forall x :: x in rest ==> s[0].distance <= x.distance by {
        forall x | x in rest
          ensures s[0].distance <= x.distance
        {
          if x != c {
            HeadIsNearest(s, x);
          }
        }
      }
      assert s == [s[0]] + s[1..];
      [s[0]] + rest
  }

  /** `allClosestPoints.sort((a, b) => a.distance - b.distance)`: ascending by distance, the
      same candidates. */
  function SortByDistance(s: seq<Candidate>): (r: seq<Candidate>)
    ensures SortedByDistance(r)
    ensures multiset(r) == multiset(s) && |r| == |s|
    decreases |s|
  {
    if s == [] then []
    else
      assert s == s[..|s| - 1] + [s[|s| - 1]];
      Insert(s[|s| - 1], SortByDistance(s[..|s| - 1]))
  }

  /** The candidates of `s` at distance exactly `d`, in their order in `s`. */
  function Ties(s: seq<Candidate>, d: real): seq<Candidate>
    decreases |s|
  {
    if s == [] then []
    else (if s[0].distance == d then [s[0]] else []) + Ties(s[1..], d)
  }

  /** Ties of a concatenation are the ties of each part. */
  lemma {:induction false} TiesAppend(a: seq<Candidate>, b: seq<Candidate>, d: real)
    ensures Ties(a + b, d) == Ties(a, d) + Ties(b, d)
    decreases |a|
  {
    if a == [] {
      assert a + b == b;
    } else {
      var ab := a + b;
      var head: seq<Candidate> := if a[0].distance == d then [a[0]] else [];
      assert ab[0] == a[0];
      assert ab[1..] == a[1..] + b;
      assert Ties(ab, d) == head + Ties(a[1..] + b, d);
      TiesAppend(a[1..], b, d);
      assert Ties(a, d) == head + Ties(a[1..], d);
    }
  }

  /** The sort is stable, as `Array.prototype.sort` is: candidates at one distance keep the
      order they were pushed in, which decides which of several tied points are joined and
      highlighted. */
  lemma {:induction false} SortIsStable(s: seq<Candidate>, d: real)
    ensures Ties(SortByDistance(s), d) == Ties(s, d)
    decreases |s|
  {
    if s != [] {
      var init, last := s[..|s| - 1], s[|s| - 1];
      assert s == init + [last];
      SortIsStable(init, d);
      InsertIsStable(last, SortByDistance(init), d);
      TiesAppend(init, [last], d);
    }
  }

  /** `Insert` places `c` after every candidate of its own distance. */
  lemma {:induction false} InsertIsStable(c: Candidate, s: seq<Candidate>, d: real)
    requires SortedByDistance(s)
    ensures Ties(Insert(c, s), d) == Ties(s, d) + Ties([c], d)
    decreases |s|
  {
    var mine: seq<Candidate> := if c.distance == d then [c] else [];
    assert [c][1..] == [];
    assert Ties([c], d) == mine + Ties([], d);
    if s == [] {
      assert Insert(c, s) == [c];
    } else if c.distance < s[0].distance {
      assert Insert(c, s) == [c] + s;
      TiesAppend([c], s, d);
      if c.distance == d {
        NoTiesBelowHead(s, d);
      }
    } else {
      var rest := Insert(c, s[1..]);
      var head: seq<Candidate> := if s[0].distance == d then [s[0]] else [];
      InsertIsStable(c, s[1..], d);
      assert Insert(c, s) == [s[0]] + rest;
      TiesAppend([s[0]], rest, d);
      assert [s[0]][1..] == [];
      assert Ties([s[0]], d) == head + Ties([], d);
      assert Ties(s, d) == head + Ties(s[1..], d);
    }
  }

  /** A sorted list has no candidate nearer than its head. */
  lemma {:induction false} NoTiesBelowHead(s: seq<Candidate>, d: real)
    requires SortedByDistance(s) && s != [] && d < s[0].distance
    ensures Ties(s, d) == []
    decreases |s|
  {
    if |s| > 1 {
      assert s[1..][0] == s[1];
      NoTiesBelowHead(s[1..], d);
    }
  }

  /** `Math.min(15, Math.max(10, allClosestPoints.length))`. */
  function ClosestCount(n: nat): (k: nat)
    ensures MinConnections <= k <= MaxConnections
    ensures MinConnections <= n <= MaxConnections ==> k == n
    ensures n < MinConnections ==> k == MinConnections
    ensures n > MaxConnections ==> k == MaxConnections
  {
    Min(MaxConnections, Max(MinConnections, n))
  }

  /** `allClosestPoints.slice(0, closestCount)` of the sorted list. */
  function Selected(sorted: seq<Candidate>): (sel: seq<Candidate>)
    ensures |sel| == Min(|sorted|, MaxConnections)
    ensures sel == sorted[..|sel|]
  {
    sorted[..Min(ClosestCount(|sorted|), |sorted|)]
  }

  /** The lower clamp of 10 never selects more candidates than exist, so the count joined is
      exactly `min(n, 15)`; and no selected candidate is farther than an unselected one. */
  lemma SelectedAreNearest(candidates: seq<Candidate>)
    ensures var sorted := SortByDistance(candidates);
      var sel := Selected(sorted);
      var rest := sorted[|sel|..];
      && |sel| == Min(|candidates|, MaxConnections)
      && multiset(sel) + multiset(rest) == multiset(candidates)
      && (forall x, y :: x in sel && y in rest ==> x.distance <= y.distance)
  {
    var sorted := SortByDistance(candidates);
    var sel := Selected(sorted);
    var rest := sorted[|sel|..];
    assert sorted == sel + rest;
    forall x, y | x in sel && y in rest
      ensures x.distance <= y.distance
    {
      var i :| 0 <= i < |sel| && sel[i] == x;
      var j :| 0 <= j < |rest| && rest[j] == y;
      assert sorted[i] == x && sorted[|sel| + j] == y;
    }
  }

  /** `pointsToConnect.slice(0, 4)` when more than three are joined, otherwise none. */
  function Highlighted(sel: seq<Candidate>): (h: seq<Candidate>)
    ensures |sel| > 3 ==> h == sel[..HighlightCount]
    ensures |sel| <= 3 ==> h == []
  {
    if |sel| > 3 then sel[..HighlightCount] else []
  }

  /** What `drawConnections` strokes: the joined lines and the highlighted ones. */
  datatype Strokes = Strokes(lines: seq<Candidate>, highlighted: seq<Candidate>)

  function Connections(mouseActive: bool, candidates: seq<Candidate>): (st: Strokes)
    ensures !mouseActive || candidates == [] ==> st == Strokes([], [])
    ensures mouseActive && candidates != [] ==>
      st.lines == Selected(SortByDistance(candidates)) && st.highlighted == Highlighted(st.lines)
    ensures |st.lines| <= MaxConnections && |st.highlighted| <= HighlightCount
    ensures st.highlighted == st.lines[..|st.highlighted|]
  {
    if !mouseActive || candidates == [] then Strokes([], [])
    else
      var sel := Selected(SortByDistance(candidates));
      Strokes(sel, Highlighted(sel))
  }

  /** The candidates one shape's `update` pushes: its points nearer than 220, in point order. */
  function CloseOnes(shape: nat, distances: seq<real>): (cs: seq<Candidate>)
    ensures |cs| <= |distances|
    ensures forall c :: c in cs ==> c.shape == shape && c.point < |distances| &&
                                    c.distance == distances[c.point] && c.distance < ConnectRadius
    ensures forall p :: 0 <= p < |distances| && distances[p] < ConnectRadius ==>
                          Candidate(shape, p, distances[p]) in cs
    ensures forall i, j :: 0 <= i < j < |cs| ==> cs[i].point < cs[j].point
    decreases |distances|
  {
    if distances == [] then []
    else
      var p := |distances| - 1;
      var prev := CloseOnes(shape, distances[..p]);
      if distances[p] < ConnectRadius then prev + [Candidate(shape, p, distances[p])] else prev
  }

  /** `a` is pushed before `b`: an earlier shape, or the same shape and an earlier point. */
  predicate Before(a: Candidate, b: Candidate) {
    a.shape < b.shape || (a.shape == b.shape && a.point < b.point)
  }

  /** A frame's candidates: every shape's close points, shape by shape, when the mouse is
      active; none otherwise. */
  function Collected(mouseActive: bool, frame: seq<seq<real>>): (cs: seq<Candidate>)
    ensures !mouseActive ==> cs == []
    ensures forall c :: c in cs ==> c.shape < |frame| && c.point < |frame[c.shape]| &&
                                    c.distance == frame[c.shape][c.point] && c.distance < ConnectRadius
    ensures mouseActive ==> forall s, p :: 0 <= s < |frame| && 0 <= p < |frame[s]| && frame[s][p] < ConnectRadius ==>
                                             Candidate(s, p, frame[s][p]) in cs
    ensures forall i, j :: 0 <= i < j < |cs| ==> Before(cs[i], cs[j])
    decreases |frame|
  {
    if !mouseActive || frame == [] then []
    else
      var s := |frame| - 1;
      var prev := Collected(mouseActive, frame[..s]);
      assert forall i :: 0 <= i < s ==> frame[..s][i] == frame[i];
      var mine := CloseOnes(s, frame[s]);
      assert forall i :: 0 <= i < |prev| ==> prev[i] in prev && prev[i].shape < s;
      assert forall j :: 0 <= j < |mine| ==> mine[j] in mine && mine[j].shape == s;
      prev + mine
  }

  function Sum(xs: seq<real>): real
    decreases |xs|
  {
    if xs == [] then 0.0 else Sum(xs[..|xs| - 1]) + xs[|xs| - 1]
  }

  /** The distances below 220, each as often as it occurs. */
  function Near(distances: seq<real>): (near: seq<real>)
    ensures forall x :: x in near ==> x in distances && x < ConnectRadius
    ensures |near| <= |distances|
    ensures forall x :: multiset(near)[x] == if x < ConnectRadius then multiset(distances)[x] else 0
    ensures near == [] <==> forall d :: d in distances ==> d >= ConnectRadius
    decreases |distances|
  {
    if distances == [] then []
    else
      var p := |distances| - 1;
      var prev := Near(distances[..p]);
      assert distances == distances[..p] + [distances[p]];
      assert distances[p] in distances;
      assert forall d :: d in distances <==> d in distances[..p] || d == distances[p];
      if distances[p] < ConnectRadius then prev + [distances[p]] else prev
  }

  lemma {:induction false} SumBounds(xs: seq<real>)
    requires forall x :: x in xs ==> 0.0 <= x < ConnectRadius
    ensures 0.0 <= Sum(xs) && (xs != [] ==> Sum(xs) < ConnectRadius * (|xs| as real))
    decreases |xs|
  {
    if xs != [] {
      var init := xs[..|xs| - 1];
      assert forall x :: x in init ==> x in xs;
      assert xs[|xs| - 1] in xs;
      SumBounds(init);
      assert ConnectRadius * (|xs| as real) == ConnectRadius * (|init| as real) + ConnectRadius;
    }
  }

  /** The mean of values below 220 is below 220. */
  lemma MeanBelowRadius(total: real, n: real)
    requires n > 0.0 && 0.0 <= total < ConnectRadius * n
    ensures 0.0 <= total / n < ConnectRadius
  {
  }

  /** A shape's `currentAlpha`: its base alpha, raised by 1.6 times one minus the mean
      distance of its near points over 220, and exactly the base alpha when the mouse is
      inactive or no point is near. Distances to the mouse are never negative. */
  function Alpha(baseAlpha: real, mouseActive: bool, distances: seq<real>): (a: real)
    ensures !mouseActive || Near(distances) == [] ==> a == baseAlpha
    ensures mouseActive && Near(distances) != [] && (forall d :: d in distances ==> d >= 0.0) ==>
      baseAlpha < a <= baseAlpha + AlphaBoost
    ensures !mouseActive || (forall d :: d in distances ==> d >= ConnectRadius) ==> a == baseAlpha
    ensures mouseActive && (exists d :: d in distances && d < ConnectRadius) && (forall d :: d in distances ==> d >= 0.0) ==>
      baseAlpha < a <= baseAlpha + AlphaBoost
  {
    var near := Near(distances);
    if near != [] && mouseActive then
      var avg := Sum(near) / (|near| as real);
      var intensity := 1.0 - avg / ConnectRadius;
      AlphaFacts(near, distances);
      baseAlpha + intensity * AlphaBoost
    else baseAlpha
  }

  lemma AlphaFacts(near: seq<real>, distances: seq<real>)
    requires near == Near(distances) && near != []
    ensures (forall d :: d in distances ==> d >= 0.0) ==>
      var intensity := 1.0 - (Sum(near) / (|near| as real)) / ConnectRadius;
      0.0 < intensity <= 1.0
  {
    if forall d :: d in distances ==> d >= 0.0 {
      SumBounds(near);
      MeanBelowRadius(Sum(near), |near| as real);
    }
  }

  /** The animation loop's shared state: the mouse, `allClosestPoints`, and what the last
      `drawConnections` stroked. */
  class Canvas {
    var mouseActive: bool
    var candidates: seq<Candidate>
    var lines: seq<Candidate>
    var highlighted: seq<Candidate>

    constructor ()
      ensures !mouseActive && candidates == [] && lines == [] && highlighted == []
    {
      mouseActive := false;
      candidates, lines, highlighted := [], [], [];
    }

    /** `mousemove` and `mouseleave`. */
    method SetMouseActive(active: bool)
      modifies this
      ensures mouseActive == active
      ensures candidates == old(candidates) && lines == old(lines) && highlighted == old(highlighted)
    {
      mouseActive := active;
    }

    /** The point loop of one shape's `update`: each point nearer than 220 to an active
        mouse is pushed. */
    method UpdateShape(shape: nat, distances: seq<real>)
      modifies this
      ensures mouseActive == old(mouseActive) && lines == old(lines) && highlighted == old(highlighted)
      ensures candidates == old(candidates) + if mouseActive then CloseOnes(shape, distances) else []
    {
      var p := 0;
      while p < |distances|
        invariant 0 <= p <= |distances|
        invariant mouseActive == old(mouseActive) && lines == old(lines) && highlighted == old(highlighted)
        invariant candidates == old(candidates) + if mouseActive then CloseOnes(shape, distances[..p]) else []
      {
        if mouseActive && distances[p] < ConnectRadius {
          candidates := candidates + [Candidate(shape, p, distances[p])];
        }
        assert distances[..p + 1][..p] == distances[..p];
        p := p + 1;
      }
      assert distances[..p] == distances;
    }

    /** `drawConnections`: returns at once without an active mouse or candidates; otherwise
        sorts the candidates in place and strokes the selection. */
    method DrawConnections()
      modifies this
      ensures mouseActive == old(mouseActive)
      ensures Strokes(lines, highlighted) == Connections(mouseActive, old(candidates))
      ensures candidates == if mouseActive && old(candidates) != [] then SortByDistance(old(candidates))
                            else old(candidates)
    {
      lines, highlighted := [], [];
      if !mouseActive || |candidates| == 0 {
        return;
      }
      candidates := SortByDistance(candidates);
      var count := ClosestCount(|candidates|);
      lines := candidates[..Min(count, |candidates|)];
      if |lines| > 3 {
        highlighted := lines[..HighlightCount];
      }
    }

    /** One `animate` frame: the candidates are emptied, every shape updated in turn, then
        the connections drawn. */
    method Animate(frame: seq<seq<real>>)
      modifies this
      ensures mouseActive == old(mouseActive)
      ensures Strokes(lines, highlighted) == Connections(mouseActive, Collected(mouseActive, frame))
    {
      candidates := [];
      var s := 0;
      while s < |frame|
        invariant 0 <= s <= |frame| && mouseActive == old(mouseActive)
        invariant candidates == Collected(mouseActive, frame[..s])
      {
        UpdateShape(s, frame[s]);
        assert frame[..s + 1][..s] == frame[..s];
        s := s + 1;
      }
      assert frame[..s] == frame;
      DrawConnections();
    }
  }

  /** The search form's state: the input's value and the alerts shown. */
  class SearchBox {
    var value: string
    var alerts: seq<string>

    constructor ()
      ensures value == "" && alerts == []
    {
      value, alerts := "", [];
    }

    /** `onChange`. */
    method OnChange(v: string)
      modifies this
      ensures value == v && alerts == old(alerts)
    {
      value := v;
    }

    /** `handleSearch`: only a value with something besides blanks is searched; the alert
        shows the value untrimmed, and the box is cleared. */
    method HandleSearch()
      modifies this
      ensures JsTrim(old(value)) != "" ==> alerts == old(alerts) + [SearchAlertPrefix + old(value)] && value == ""
      ensures JsTrim(old(value)) == "" ==> alerts == old(alerts) && value == old(value)
    {
      if JsTrim(value) != "" {
        alerts := alerts + [SearchAlertPrefix + value];
        value := "";
      }
    }

    /** `handleKeyPress`: Enter searches exactly as the button does; other keys do nothing. */
    method HandleKeyPress(key: string)
      modifies this
      ensures key == "Enter" && JsTrim(old(value)) != "" ==>
                alerts == old(alerts) + [SearchAlertPrefix + old(value)] && value == ""
      ensures key != "Enter" || JsTrim(old(value)) == "" ==> alerts == old(alerts) && value == old(value)
    {
      if key == "Enter" {
        HandleSearch();
      }
    }
  }

  /** A value that is only blanks is never searched. */
  lemma BlankSearchIgnored(value: string)
    requires forall i :: 0 <= i < |value| ==> IsJsSpace(value[i])
    ensures JsTrim(value) == ""
  {
  }
}

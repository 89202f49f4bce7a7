/**
  The Projects showcase: a scroll scene of 100vh per project in which
  exactly one project, the active one, is shown.  The active index is
  re-resolved from the scroll progress on every progress change.
 */
module Projects {
  import opened Partition

  datatype Project = Project(title: string, link: string, bgColor: string)

  /** The projects currently listed (two more are commented out). */
  const ProjectList: seq<Project> := [Project("Air Guard", "https://air-guard.io.vn", "#0d4d3d")]

  /** Array.prototype.findIndex with the predicate `v <= t`: the first
      index whose threshold is at least `v`, or -1 when there is none. */
  function FindIndex(t: seq<real>, v: real): (r: int)
    ensures -1 <= r < |t|
    ensures r == -1 <==> forall i :: 0 <= i < |t| ==> t[i] < v
    ensures 0 <= r ==> v <= t[r] && forall j :: 0 <= j < r ==> t[j] < v
  {
    if |t| == 0 then -1
    else if v <= t[0] then 0
    else
      var k := FindIndex(t[1..], v);
      if k == -1 then -1 else k + 1
  }

  /** The index the scroll callback stores: the find result, or the
      last index when no threshold is at least the progress. */
  function ActiveIndex(t: seq<real>, v: real): int
  {
    var idx := FindIndex(t, v);
    if idx == -1 then |t| - 1 else idx
  }

  /** The stored index is the smallest one whose threshold reaches the
      progress; when none does it is the last index. */
  lemma ActiveIndexCharacterized(t: seq<real>, v: real)
    requires |t| >= 1
    ensures 0 <= ActiveIndex(t, v) < |t|
    ensures (exists i :: 0 <= i < |t| && v <= t[i]) ==>
      v <= t[ActiveIndex(t, v)] &&
      forall j :: 0 <= j < ActiveIndex(t, v) ==> t[j] < v
    ensures (forall i :: 0 <= i < |t| ==> t[i] < v) ==> ActiveIndex(t, v) == |t| - 1
  {
  }

  /** A larger progress never selects an earlier project. */
  lemma ActiveIndexMonotone(t: seq<real>, v: real, w: real)
    requires v <= w
    ensures ActiveIndex(t, v) <= ActiveIndex(t, w)
  {
    var iw := FindIndex(t, w);
    if iw != -1 {
      assert v <= t[iw];
      assert FindIndex(t, v) != -1;
    }
  }

  /** Inside [0, 1] the fallback is never taken: the last threshold is 1,
      so the find always succeeds. */
  lemma FallbackUnusedInUnitRange(n: nat, v: real)
    requires n >= 1 && 0.0 <= v <= 1.0
    ensures FindIndex(Thresholds(n), v) != -1
    ensures 0 <= ActiveIndex(Thresholds(n), v) < n
  {
    ThresholdsInUnitRange(n);
  }

  /** With the one project currently listed, it is active for every
      progress value, inside or outside [0, 1]. */
  lemma SingleProjectAlwaysActive(v: real)
    ensures ActiveIndex(Thresholds(|ProjectList|), v) == 0
  {
    assert |Thresholds(1)| == 1;
  }

  /** For two items: progress 0.3 and 0.5 select the first, 0.51 the second. */
  lemma TwoItemScenario()
    ensures ActiveIndex(Thresholds(2), 0.3) == 0
    ensures ActiveIndex(Thresholds(2), 0.5) == 0
    ensures ActiveIndex(Thresholds(2), 0.51) == 1
  {
    var t := Thresholds(2);
    assert t[0] == 0.5 && t[1] == 1.0;
  }

  /** Whether the card of project `idx` carries the visible class. */
  predicate IsShown(activeIndex: int, idx: int) {
    activeIndex == idx
  }

  /** The titles rendered, in list order, from position `from` on: only
      the shown project renders its title. */
  function TitlesFrom(ps: seq<Project>, activeIndex: int, from: nat): (r: seq<string>)
    requires from <= |ps|
    ensures |r| <= 1
    ensures |r| == 1 <==> from <= activeIndex < |ps|
    ensures |r| == 1 ==> r[0] == ps[activeIndex].title
    decreases |ps| - from
  {
    if from == |ps| then []
    else (if IsShown(activeIndex, from) then [ps[from].title] else [])
         + TitlesFrom(ps, activeIndex, from + 1)
  }

  /** Exactly one card is shown, and exactly one title rendered, when the
      active index is in range. */
  lemma ExactlyOneShown(ps: seq<Project>, activeIndex: int)
    requires 0 <= activeIndex < |ps|
    ensures forall i :: 0 <= i < |ps| ==> (IsShown(activeIndex, i) <==> i == activeIndex)
    ensures TitlesFrom(ps, activeIndex, 0) == [ps[activeIndex].title]
  {
  }

  /** The mounted Projects section: its project count, its height and
      the active index that the scroll subscription overwrites.  The
      progress last reported is kept as ghost state, to say which index
      the stored one is. */
  class ProjectsScene {
    const projects: seq<Project>
    const heightVh: nat
    var activeIndex: int
    ghost var lastProgress: real

    ghost predicate Valid()
      reads this
    {
      && 0 <= activeIndex < |projects|
      && activeIndex == ActiveIndex(Thresholds(|projects|), lastProgress)
    }

    constructor (ps: seq<Project>)
      requires |ps| >= 1
      ensures projects == ps && activeIndex == 0 && lastProgress == 0.0 && Valid()
      ensures heightVh == 100 * |ps|
    {
      projects := ps;
      heightVh := 100 * |ps|;
      activeIndex := 0;
      lastProgress := 0.0;
      ThresholdsInUnitRange(|ps|);
    }

    /** The progress-change callback. */
    method OnProgressChange(v: real)
      requires Valid()
      modifies this
      ensures Valid() && lastProgress == v
      ensures activeIndex == ActiveIndex(Thresholds(|projects|), v)
    {
      ActiveIndexCharacterized(Thresholds(|projects|), v);
      activeIndex := ActiveIndex(Thresholds(|projects|), v);
      lastProgress := v;
    }

    /** The background colour is that of the project the last progress
        selects, which is the one card with the visible class. */
    method Background() returns (color: string)
      requires Valid()
      ensures color == projects[ActiveIndex(Thresholds(|projects|), lastProgress)].bgColor
      ensures forall i :: 0 <= i < |projects| && IsShown(activeIndex, i) ==> color == projects[i].bgColor
    {
      color := projects[activeIndex].bgColor;
    }
  }
}

/** imageProcess's filter cycler: the widget keeps a tuple of fragment
    shader names, the one currently applied and the window title naming it.
    Space moves to the next filter, wrapping from the last to the first, and
    `paintGL` looks the active filter up in the table of programs
    `initializeGL` compiled, one per filter. */
module FilterCycle {
  import opened Util

  /** The widget state the cycler touches. */
  datatype Widget = Widget(filters: seq<string>, active: string, title: string)

  /** `tuple.index` raises `ValueError` for a missing value; a dictionary
      lookup raises `KeyError` for a missing key. */
  datatype FilterError = ValueError | KeyError

  /** `Qt.Key_Space`. */
  const KeySpace: int := 0x20

  /** The filter tuple `__init__` sets up. */
  const Filters: seq<string> := ["shader.frag", "gaussian.frag"]

  /** The window title for filter `f` (the typo is the program's own). */
  function Title(f: string): string
  {
    "Dispaly with filter[" + f + "]"
  }

  /** `__init__` names the active filter explicitly, and `loadImage` titles
      the window after it. */
  function Initial(): Widget
  {
    Widget(Filters, "shader.frag", Title("shader.frag"))
  }

  /** The state every reachable widget is in: the active filter is one of
      the filters and the title names it. */
  predicate Valid(w: Widget)
  {
    w.active in w.filters && w.title == Title(w.active)
  }

  /** No filter is listed twice. */
  predicate Distinct(s: seq<string>)
  {
    forall i, j :: 0 <= i < j < |s| ==> s[i] != s[j]
  }

  /** `tuple.index`: the position of the first occurrence of `x`, or nothing
      when `x` is absent. */
  function IndexOf(s: seq<string>, x: string): (r: Option<nat>)
    ensures r.None? <==> x !in s
    ensures r.Some? ==> r.value < |s| && s[r.value] == x
    ensures r.Some? ==> forall k :: 0 <= k < r.value ==> s[k] != x
  {
    if |s| == 0 then None
    else if s[0] == x then Some(0)
    else match IndexOf(s[1..], x)
      case None => None
      case Some(i) => Some(i + 1)
  }

  /** `keyPressEvent`: Space finds the active filter, moves to the next one
      and retitles the window; every other key leaves the widget alone. */
  function KeyPress(w: Widget, key: int): (r: Result<Widget, FilterError>)
    ensures key != KeySpace ==> r == Ok(w)
    ensures key == KeySpace ==> (r.Err? <==> w.active !in w.filters)
    ensures r.Ok? ==> r.value.filters == w.filters
    ensures key == KeySpace && r.Ok? ==> r.value.active in w.filters && r.value.title == Title(r.value.active)
  {
    if key == KeySpace then
      match IndexOf(w.filters, w.active)
      case None => Err(ValueError)
      case Some(i) =>
        var next := w.filters[NextIndex(i, |w.filters|)];
        Ok(w.(active := next, title := Title(next)))
    else Ok(w)
  }

  /** The start state is valid, and its active filter is the first one. */
  lemma InitialValid()
    ensures Valid(Initial())
    ensures Initial().active == Initial().filters[0]
    ensures Distinct(Initial().filters)
  {
  }

  /** Every key keeps a valid widget valid, and no key fails on one. */
  lemma KeyPressPreservesValid(w: Widget, key: int)
    requires Valid(w)
    ensures KeyPress(w, key).Ok? && Valid(KeyPress(w, key).value)
  {
  }

  /** The widget switched to filter `j` and titled after it. */
  function On(w: Widget, j: nat): Widget
    requires j < |w.filters|
  {
    w.(active := w.filters[j], title := Title(w.filters[j]))
  }

  /** On distinct filters, Space moves from filter `i` to the next one,
      wrapping from the last to the first. */
  lemma SpaceAdvances(w: Widget, i: nat)
    requires Distinct(w.filters) && i < |w.filters|
    ensures KeyPress(On(w, i), KeySpace) == Ok(On(w, NextIndex(i, |w.filters|)))
  {
    var r := IndexOf(w.filters, w.filters[i]);
    assert r.Some? && r.value == i;
  }

  /** The widget after `k` presses of Space. */
  function Presses(w: Widget, k: nat): Result<Widget, FilterError>
  {
    if k == 0 then Ok(w)
    else match Presses(w, k - 1)
      case Err(e) => Err(e)
      case Ok(v) => KeyPress(v, KeySpace)
  }

  /** One more press acts on the widget the earlier presses produced. */
  lemma PressesStep(w: Widget, k: nat, v: Widget)
    requires Presses(w, k) == Ok(v)
    ensures Presses(w, k + 1) == KeyPress(v, KeySpace)
  {
  }

  /** After `k` presses a widget on filter `i` of distinct filters is on
      filter `(i + k) mod n`, titled after it. */
  lemma PressesAdvance(w: Widget, i: nat, k: nat)
    requires Distinct(w.filters) && i < |w.filters|
    ensures Presses(On(w, i), k) == Ok(On(w, (i + k) % |w.filters|))
  {
    PressesLater(w, i, k);
    LaterIsMod(i, k, |w.filters|);
  }

  /** The same count of presses, stated with `Later`. */
  lemma {:induction false} PressesLater(w: Widget, i: nat, k: nat)
    requires Distinct(w.filters) && i < |w.filters|
    ensures Presses(On(w, i), k) == Ok(On(w, Later(i, k, |w.filters|)))
  {
    if k > 0 {
      var k' := k - 1;
      PressesLater(w, i, k');
      var j := Later(i, k', |w.filters|);
      PressesStep(On(w, i), k', On(w, j));
      SpaceAdvances(w, j);
      assert Later(i, k, |w.filters|) == NextIndex(j, |w.filters|);
    }
  }

  /** Pressing Space once per filter brings a valid widget back to exactly
      where it started. */
  lemma FullCycleReturns(w: Widget)
    requires Valid(w) && Distinct(w.filters)
    ensures Presses(w, |w.filters|) == Ok(w)
  {
    var n := |w.filters|;
    var i := IndexOf(w.filters, w.active).value;
    assert On(w, i) == w;
    PressesLater(w, i, n);
    LaterFullCircle(i, n);
  }

  /** With the program's two filters Space is a toggle: one press switches
      to the Gaussian filter, a second one switches back. */
  lemma SpaceToggles()
    ensures KeyPress(Initial(), KeySpace) == Ok(Widget(Filters, "gaussian.frag", Title("gaussian.frag")))
    ensures Presses(Initial(), 2) == Ok(Initial())
  {
    SpaceAdvances(Initial(), 0);
    FullCycleReturns(Initial());
  }

  /** `initializeGL`'s loop: a program is compiled for each filter in turn
      and stored under the filter's name, a later one replacing an earlier
      one of the same name. The program is identified by its position in
      the compile order; the compiled handle itself comes from GL. */
  function InstallPrograms(filters: seq<string>): (m: map<string, nat>)
    ensures m.Keys == set f | f in filters
    ensures forall f :: f in m ==> m[f] < |filters| && filters[m[f]] == f
    ensures forall f, k :: f in m && m[f] < k < |filters| ==> filters[k] != f
  {
    if |filters| == 0 then map[]
    else
      var last := |filters| - 1;
      var prefix := filters[..last];
      assert filters == prefix + [filters[last]];
      assert forall f :: f in filters <==> f in prefix || f == filters[last];
      var m := InstallPrograms(prefix);
      assert forall f :: f in m ==> m[f] < last && filters[m[f]] == f;
      m[filters[last] := last]
  }

  /** `paintGL`'s lookup of the active filter's program. */
  function Program(w: Widget, programs: map<string, nat>): (r: Result<nat, FilterError>)
    ensures r.Ok? <==> w.active in programs
    ensures r.Ok? ==> r.value == programs[w.active]
  {
    if w.active in programs then Ok(programs[w.active]) else Err(KeyError)
  }

  /** On every valid widget the paint lookup succeeds and finds a program
      compiled from the active filter's own shader. */
  lemma PaintFindsProgram(w: Widget)
    requires Valid(w)
    ensures Program(w, InstallPrograms(w.filters)).Ok?
    ensures w.filters[Program(w, InstallPrograms(w.filters)).value] == w.active
  {
  }
}

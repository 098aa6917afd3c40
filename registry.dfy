/**
 * The screen registry that `UIManager` in lib/squixl_ui_EX.py keeps, as a value:
 * a dictionary from screen name to its background colour and ordered control
 * list, and the name of the current screen.  It is generic in the control type;
 * the manager class holds one of these and its methods are specified by the
 * functions below.
 */
module Registry {
  import opened Wrappers

  /** One entry of `UIManager.screens`: `{'bg_color': bg, 'controls': controls}`. */
  datatype Screen<W> = Screen(bg: int, controls: seq<W>)

  predicate NoDuplicates<W(==)>(s: seq<W>) {
    forall i, j :: 0 <= i < j < |s| ==> s[i] != s[j]
  }

  datatype Registry<W(==)> = Registry(screens: map<string, Screen<W>>, current: Option<string>) {

    /** The registry invariant: the current screen, when set, is registered, and no
        control appears twice on one screen. */
    predicate Valid() {
      && (current.Some? ==> current.value in screens)
      && (forall n :: n in screens ==> NoDuplicates(screens[n].controls))
    }

    /** `add_screen`: (re)register `name` with an empty control list; the first
        screen ever registered becomes current and a set current screen is kept. */
    function AddScreen(name: string, bg: int): (r: Registry<W>)
      ensures r.screens.Keys == screens.Keys + {name}
      ensures r.screens[name] == Screen(bg, [])
      ensures forall n :: n in screens && n != name ==> r.screens[n] == screens[n]
      ensures current.None? ==> r.current == Some(name)
      ensures current.Some? ==> r.current == current
      ensures Valid() ==> r.Valid()
    {
      Registry(screens[name := Screen(bg, [])], if current.None? then Some(name) else current)
    }

    /** `set_screen`: a known name becomes current; an unknown one changes nothing. */
    function SetScreen(name: string): (r: Registry<W>)
      ensures r.screens == screens
      ensures name in screens ==> r.current == Some(name)
      ensures name !in screens ==> r == this
      ensures Valid() ==> r.Valid()
    {
      if name in screens then Registry(screens, Some(name)) else this
    }

    /** Whether `add_control(name, w)` appends: the screen exists and `w` is not on it yet. */
    predicate Accepts(name: string, w: W) {
      name in screens && w !in screens[name].controls
    }

    /** `add_control`: append `w` to screen `name` when accepted, otherwise no change. */
    function AddControl(name: string, w: W): (r: Registry<W>)
      ensures r.current == current && r.screens.Keys == screens.Keys
      ensures Accepts(name, w) ==>
        r.screens[name] == Screen(screens[name].bg, screens[name].controls + [w])
      ensures forall n :: n in screens && n != name ==> r.screens[n] == screens[n]
      ensures !Accepts(name, w) ==> r == this
      ensures Valid() ==> r.Valid()
    {
      if Accepts(name, w) then
        var s := screens[name];
        var cs := s.controls + [w];
        assert NoDuplicates(s.controls) ==> NoDuplicates(cs);
        Registry(screens[name := Screen(s.bg, cs)], current)
      else this
    }

    /** The controls of the current screen, in insertion order; none when no screen is current. */
    function Current(): seq<W>
      requires Valid()
    {
      if current.Some? then screens[current.value].controls else []
    }

    /** The background colour of the current screen. */
    function CurrentBg(): int
      requires Valid() && current.Some?
    {
      screens[current.value].bg
    }
  }

  /** Screen registrations applied one after another, as a program's setup does. */
  function AddScreens<W(==)>(r: Registry<W>, names: seq<(string, int)>): Registry<W>
    decreases |names|
  {
    if names == [] then r else AddScreens(r.AddScreen(names[0].0, names[0].1), names[1..])
  }

  /** However many screens are registered, the first one registered stays current. */
  lemma {:induction false} FirstScreenStaysCurrent<W>(r: Registry<W>, names: seq<(string, int)>)
    requires names != []
    ensures r.current.None? ==> AddScreens(r, names).current == Some(names[0].0)
    ensures r.current.Some? ==> AddScreens(r, names).current == r.current
    decreases |names|
  {
    var r' := r.AddScreen(names[0].0, names[0].1);
    assert r'.current.Some?;
    if |names| > 1 {
      FirstScreenStaysCurrent(r', names[1..]);
    }
  }

  /** Re-registering a screen name drops whatever controls it had. */
  lemma ReAddingEmptiesScreen<W>(r: Registry<W>, name: string, w: W, bg: int, bg': int)
    ensures r.AddScreen(name, bg).AddControl(name, w).AddScreen(name, bg').screens[name].controls == []
    ensures r.AddScreen(name, bg).AddControl(name, w).screens[name].controls == [w]
  {
  }

  /** Adding the same control to a screen twice leaves it there once. */
  lemma {:induction false} AddControlTwice<W>(r: Registry<W>, name: string, w: W)
    ensures r.AddControl(name, w).AddControl(name, w) == r.AddControl(name, w)
  {
    if r.Accepts(name, w) {
      var r1 := r.AddControl(name, w);
      assert w in r1.screens[name].controls;
      assert !r1.Accepts(name, w);
    }
  }

  /**
   * A control may sit on two screens: registering it on a second screen succeeds
   * (the manager then overwrites the control's assigned screen).
   */
  lemma TwoScreensOneControl<W>(r: Registry<W>, a: string, b: string, w: W)
    requires a != b && a in r.screens && b in r.screens
    requires w !in r.screens[a].controls && w !in r.screens[b].controls
    ensures var r2 := r.AddControl(a, w).AddControl(b, w);
      w in r2.screens[a].controls && w in r2.screens[b].controls
  {
  }
}

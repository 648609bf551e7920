/** The UI manager: a registry of named panels and the stack of active panel
  * names, top last. Panel objects are reduced to their name and kind, and
  * their game-object activity to a set of shown names. */
module UIManager {
  import opened Wrappers

  /** The panel classes deriving from the panel base class that `GetPanel<T>`
    * can be asked for. The victory and defeat panels are plain behaviours, not
    * panels, so only `GameUIKind` and `OtherKind` can ever be registered. */
  datatype PanelKind = GameUIKind | VictoryKind | DefeatKind | OtherKind

  datatype Panel = Panel(name: string, kind: PanelKind)

  datatype UI = UI(panels: map<string, Panel>, shown: set<string>, stack: seq<string>)

  const GameUIName := "GameUI"

  /** The manager before any panel is registered. */
  const Empty := UI(map[], {}, [])

  /** What the stack discipline guarantees: at most one active panel, and it
    * is a registered, shown one. */
  predicate Valid(ui: UI) {
    |ui.stack| <= 1 &&
    (forall i :: 0 <= i < |ui.stack| ==> ui.stack[i] in ui.panels && ui.stack[i] in ui.shown)
  }

  /** The active panel, if any. */
  function Top(ui: UI): Option<string> {
    if |ui.stack| == 0 then None else Some(ui.stack[|ui.stack| - 1])
  }

  /** `UIManager.RegisterPanel`: a new name is registered and its panel
    * hidden; a name already registered keeps its panel and nothing changes. */
  function RegisterPanel(ui: UI, p: Panel): (r: UI)
    ensures p.name in ui.panels ==> r == ui
    ensures p.name !in ui.panels ==>
      r.panels.Keys == ui.panels.Keys + {p.name} && r.panels[p.name] == p &&
      p.name !in r.shown && r.stack == ui.stack
    ensures forall n :: n in ui.panels ==> n in r.panels && r.panels[n] == ui.panels[n]
    ensures forall n :: n != p.name ==> (n in r.shown <==> n in ui.shown)
    ensures Valid(ui) ==> Valid(r)
  {
    if p.name in ui.panels then ui
    else UI(ui.panels[p.name := p], ui.shown - {p.name}, ui.stack)
  }

  /** `UIManager.HidePanel`: hides a registered panel, and pops it only when it
    * is on top; an unregistered name changes nothing. */
  function HidePanel(ui: UI, name: string): (r: UI)
    ensures r.panels == ui.panels
    ensures name !in ui.panels ==> r == ui
    ensures name in ui.panels ==> r.shown == ui.shown - {name}
    ensures name in ui.panels && Top(ui) == Some(name) ==> r.stack == ui.stack[..|ui.stack| - 1]
    ensures Top(ui) != Some(name) ==> r.stack == ui.stack
    ensures Valid(ui) ==> Valid(r)
  {
    if name in ui.panels then
      var hidden := ui.shown - {name};
      if Top(ui) == Some(name) then UI(ui.panels, hidden, ui.stack[..|ui.stack| - 1])
      else UI(ui.panels, hidden, ui.stack)
    else ui
  }

  /** `UIManager.ShowPanel`: an unregistered name or the current top changes
    * nothing; otherwise the current top is hidden (and popped) and the named
    * panel is shown and pushed. */
  function ShowPanel(ui: UI, name: string): (r: UI)
    ensures r.panels == ui.panels
    ensures name !in ui.panels || Top(ui) == Some(name) ==> r == ui
    ensures name in ui.panels ==> Top(r) == Some(name)
    ensures name in ui.panels && Top(ui) != Some(name) ==> name in r.shown
    ensures name in ui.panels && Top(ui) != Some(name) ==>
      (|ui.stack| == 0 ==> r.stack == [name]) &&
      (|ui.stack| > 0 && ui.stack[|ui.stack| - 1] in ui.panels ==>
        r.stack == ui.stack[..|ui.stack| - 1] + [name] && ui.stack[|ui.stack| - 1] !in r.shown)
    ensures forall n :: n != name && Some(n) != Top(ui) ==> (n in r.shown <==> n in ui.shown)
    ensures Valid(ui) ==> Valid(r)
  {
    if name !in ui.panels then ui
    else if Top(ui) == Some(name) then ui
    else
      var h := if |ui.stack| > 0 then HidePanel(ui, ui.stack[|ui.stack| - 1]) else ui;
      UI(h.panels, h.shown + {name}, h.stack + [name])
  }

  /** `UIManager.Back`: on an empty stack nothing happens. Otherwise the top is
    * popped and then hidden; hiding pops once more if the same name is next
    * below, and whatever is then on top is shown again. */
  function Back(ui: UI): (r: UI)
    ensures r.panels == ui.panels
    ensures |ui.stack| == 0 ==> r == ui
    ensures |ui.stack| > 0 ==>
      var n := |ui.stack|;
      var top := ui.stack[n - 1];
      && (top in ui.panels && n >= 2 && ui.stack[n - 2] == top ==> r.stack == ui.stack[..n - 2])
      && (!(top in ui.panels && n >= 2 && ui.stack[n - 2] == top) ==> r.stack == ui.stack[..n - 1])
      && (top in ui.panels && Top(r) != Some(top) ==> top !in r.shown)
      && (forall m :: m != top && Some(m) != Top(r) ==> (m in r.shown <==> m in ui.shown))
    ensures |r.stack| > 0 ==> r.stack[|r.stack| - 1] in r.shown
    ensures |ui.stack| > 0 && ui.stack[|ui.stack| - 1] in ui.panels && |r.stack| == 0 ==>
      ui.stack[|ui.stack| - 1] !in r.shown
    ensures Valid(ui) ==> Valid(r) && r.stack == [] && (|ui.stack| == 1 ==> ui.stack[0] !in r.shown)
  {
    if |ui.stack| == 0 then ui
    else
      var cur := ui.stack[|ui.stack| - 1];
      var popped := UI(ui.panels, ui.shown, ui.stack[..|ui.stack| - 1]);
      var h := HidePanel(popped, cur);
      if |h.stack| > 0 then UI(h.panels, h.shown + {h.stack[|h.stack| - 1]}, h.stack) else h
  }

  /** `UIManager.GetPanel<T>`: the registered panel when it is of the asked
    * kind, and nothing for an unknown name or a panel of another kind. */
  function GetPanel(ui: UI, name: string, kind: PanelKind): (r: Option<Panel>)
    ensures r.Some? <==> name in ui.panels && ui.panels[name].kind == kind
    ensures r.Some? ==> r.value == ui.panels[name] && r.value.kind == kind
  {
    if name in ui.panels && ui.panels[name].kind == kind then Some(ui.panels[name]) else None
  }

  /** The manager's start-up: every child panel registered, then the game UI shown. */
  function Startup(children: seq<Panel>): (r: UI)
    ensures Valid(r)
    ensures forall i :: 0 <= i < |children| ==> children[i].name in r.panels
    ensures (exists i :: 0 <= i < |children| && children[i].name == GameUIName) ==> Top(r) == Some(GameUIName)
  {
    ShowPanel(RegisterAll(Empty, children), GameUIName)
  }

  /** Registers panels in order; the first panel with a name wins. */
  function RegisterAll(ui: UI, ps: seq<Panel>): (r: UI)
    ensures Valid(ui) ==> Valid(r)
    ensures forall n :: n in ui.panels ==> n in r.panels && r.panels[n] == ui.panels[n]
    ensures forall i :: 0 <= i < |ps| ==> ps[i].name in r.panels
    decreases |ps|
  {
    if |ps| == 0 then ui else RegisterAll(RegisterPanel(ui, ps[0]), ps[1..])
  }

  /** The names of a panel list. */
  function Names(ps: seq<Panel>): (ns: set<string>)
    ensures forall i :: 0 <= i < |ps| ==> ps[i].name in ns
    ensures forall n :: n in ns ==> exists i :: 0 <= i < |ps| && ps[i].name == n
  {
    set i | 0 <= i < |ps| :: ps[i].name
  }

  /** `ps[i]` is the first panel of the list with its name. */
  predicate FirstOfName(ps: seq<Panel>, i: int)
    requires 0 <= i < |ps|
  {
    forall j :: 0 <= j < i ==> ps[j].name != ps[i].name
  }

  /** The names of a list are its head's name and the names of its tail. */
  lemma NamesCons(ps: seq<Panel>)
    requires |ps| > 0
    ensures Names(ps) == {ps[0].name} + Names(ps[1..])
  {
    forall n | n in Names(ps) ensures n in {ps[0].name} + Names(ps[1..]) {
      var i :| 0 <= i < |ps| && ps[i].name == n;
      if i > 0 {
        assert ps[1..][i - 1].name == n;
      }
    }
  }

  /** Registering a list adds exactly its names. */
  lemma {:induction false} RegisterAllKeys(ui: UI, ps: seq<Panel>)
    ensures RegisterAll(ui, ps).panels.Keys == ui.panels.Keys + Names(ps)
    decreases |ps|
  {
    if |ps| > 0 {
      var u := RegisterPanel(ui, ps[0]);
      RegisterAllKeys(u, ps[1..]);
      NamesCons(ps);
    }
  }

  /** A panel first of its name in the list is first of its name in the tail. */
  lemma FirstOfNameTail(ps: seq<Panel>, i: int)
    requires 0 < i < |ps| && FirstOfName(ps, i)
    ensures FirstOfName(ps[1..], i - 1) && ps[1..][i - 1] == ps[i]
  {
    var tail := ps[1..];
    forall j | 0 <= j < i - 1 ensures tail[j].name != tail[i - 1].name {
      assert tail[j] == ps[j + 1];
    }
  }

  /** Registering a list adds exactly its names, and a name that was new gets
    * the first panel of the list carrying it. */
  lemma {:induction false} RegisterAllFirstWins(ui: UI, ps: seq<Panel>)
    ensures var r := RegisterAll(ui, ps);
      && r.panels.Keys == ui.panels.Keys + Names(ps)
      && forall i :: 0 <= i < |ps| && ps[i].name !in ui.panels && FirstOfName(ps, i) ==>
           r.panels[ps[i].name] == ps[i]
    decreases |ps|
  {
    RegisterAllKeys(ui, ps);
    if |ps| > 0 {
      var u := RegisterPanel(ui, ps[0]);
      RegisterAllFirstWins(u, ps[1..]);
      forall i | 0 <= i < |ps| && ps[i].name !in ui.panels && FirstOfName(ps, i)
        ensures RegisterAll(ui, ps).panels[ps[i].name] == ps[i]
      {
        if i > 0 {
          FirstOfNameTail(ps, i);
        }
      }
    }
  }

  /** The operations a caller can issue. */
  datatype Op = Register(p: Panel) | Show(name: string) | Hide(name: string) | GoBack

  function Step(ui: UI, op: Op): UI {
    match op
    case Register(p) => RegisterPanel(ui, p)
    case Show(n) => ShowPanel(ui, n)
    case Hide(n) => HidePanel(ui, n)
    case GoBack => Back(ui)
  }

  function Run(ui: UI, ops: seq<Op>): UI
    decreases |ops|
  {
    if |ops| == 0 then ui else Run(Step(ui, ops[0]), ops[1..])
  }

  /** Whatever the callers do, the active stack never holds more than one
    * panel, and only registered ones. */
  lemma {:induction false} RunKeepsValid(ui: UI, ops: seq<Op>)
    requires Valid(ui)
    ensures Valid(Run(ui, ops)) && |Run(ui, ops).stack| <= 1
    decreases |ops|
  {
    if |ops| > 0 {
      RunKeepsValid(Step(ui, ops[0]), ops[1..]);
    }
  }

  /** Showing is idempotent, and showing then going back leaves no panel
    * active when at most one was. */
  lemma ShowThenBack(ui: UI, name: string)
    requires Valid(ui) && name in ui.panels
    ensures ShowPanel(ShowPanel(ui, name), name) == ShowPanel(ui, name)
    ensures Back(ShowPanel(ui, name)).stack == []
    ensures name !in Back(ShowPanel(ui, name)).shown
  {
  }
}

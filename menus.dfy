/**
  The list screens: pickers that return a choice on Enter, menus that run an
  action on Enter and keep going, and the scrolling Read-Me screen. Each takes
  the keys it reads as a sequence; the screens its actions open read keys of
  their own, which are not in that sequence.
*/
module Menus {
  import opened Wrappers
  import opened Text
  import opened Terminal

  // ---------------------------------------------------------------------
  // Pickers: Enter returns the highlighted entry

  /** How a picker ends: an entry chosen, cancelled, or still open when the keys run out. */
  datatype Selection = Picked(index: nat) | Cancelled | Pending(index: nat)

  /**
    A picker over n entries starting at `sel`: arrows move the cursor, Enter
    returns it, the cancel key (if the screen has one) gives up, other keys do
    nothing. The keys are tried in the source's order: arrows, Enter, cancel.
  */
  function Select(sel: nat, n: nat, keys: seq<Key>, cancel: Option<Key>): Selection
    requires sel < n
    decreases |keys|
  {
    if |keys| == 0 then Pending(sel)
    else if keys[0] == Up || keys[0] == Down then Select(Cycle(sel, keys[0], n), n, keys[1..], cancel)
    else if keys[0] == Enter then Picked(sel)
    else if cancel == Some(keys[0]) then Cancelled
    else Select(sel, n, keys[1..], cancel)
  }

  /** The net number of places the arrows move the cursor: one on per Down, one back per Up. */
  function Moves(keys: seq<Key>): int
  {
    if |keys| == 0 then 0
    else (match keys[0] case Down => 1 case Up => -1 case _ => 0) + Moves(keys[1..])
  }

  /**
    A picker's cursor never leaves the list, and it is where the arrows put
    it: before the first Enter or cancel key, the cursor sits at
    (start + Moves) mod n.
  */
  lemma {:induction false} SelectPosition(sel: nat, n: nat, keys: seq<Key>, cancel: Option<Key>)
    requires sel < n
    ensures Select(sel, n, keys, cancel).Picked? ==> Select(sel, n, keys, cancel).index < n
    ensures Select(sel, n, keys, cancel).Pending? ==> Select(sel, n, keys, cancel).index < n
    ensures (forall i :: 0 <= i < |keys| ==> keys[i] != Enter && cancel != Some(keys[i])) ==>
              Select(sel, n, keys, cancel) == Pending((sel + Moves(keys)) % n)
    decreases |keys|
  {
    if |keys| == 0 {
      ModUnique(sel, n, 0, sel);
    } else if keys[0] != Enter && (keys[0] in {Up, Down} || cancel != Some(keys[0])) {
      var next := if keys[0] in {Up, Down} then Cycle(sel, keys[0], n) else sel;
      SelectPosition(next, n, keys[1..], cancel);
      var d := match keys[0] case Down => 1 case Up => -1 case _ => 0;
      if keys[0] == Down || keys[0] == Up {
        assert next == (sel + d) % n;
      } else {
        ModUnique(sel, n, 0, sel);
        assert next == (sel + d) % n;
      }
      ModShift(sel + d, n, Moves(keys[1..]));
      assert (forall i :: 0 <= i < |keys| ==> keys[i] != Enter && cancel != Some(keys[i])) ==>
        (forall i :: 0 <= i < |keys[1..]| ==> keys[1..][i] != Enter && cancel != Some(keys[1..][i])) by {
        forall i | 0 <= i < |keys[1..]|
          ensures keys[1..][i] == keys[i + 1]
        {
        }
      }
    }
  }

  /** The picker loop of the colour, connection-type and column-type screens. */
  method SelectLoop(n: nat, keys: seq<Key>, cancel: Option<Key>) returns (r: Selection)
    requires n > 0
    ensures r == Select(0, n, keys, cancel)
  {
    var selected: nat := 0;
    var i := 0;
    while i < |keys|
      invariant 0 <= i <= |keys| && selected < n
      invariant Select(0, n, keys, cancel) == Select(selected, n, keys[i..], cancel)
    {
      assert keys[i..][0] == keys[i] && keys[i..][1..] == keys[i + 1..];
      var key := keys[i];
      if key == Up {
        selected := (selected - 1) % n;
      } else if key == Down {
        selected := (selected + 1) % n;
      } else if key == Enter {
        return Picked(selected);
      } else if cancel == Some(key) {
        return Cancelled;
      }
      i := i + 1;
    }
    return Pending(selected);
  }

  /** The colour table of the colour picker: a display name and a curses colour pair. */
  const Colors: seq<(string, int)> :=
    [("Green", 3), ("Blue", 1), ("Red", 7), ("Yellow", 2), ("Cyan", 6), ("Magenta", 5)]

  /** The six colour pairs name six different colours, all among the pairs set up at start (1 to 7). */
  lemma ColorTable()
    ensures |Colors| == 6
    ensures forall i, j :: 0 <= i < j < |Colors| ==> Colors[i].1 != Colors[j].1
    ensures forall i :: 0 <= i < |Colors| ==> 1 <= Colors[i].1 <= 7
  {
  }

  /**
    `select_color_screen`: Enter returns the colour pair of the highlighted
    name, 'q' returns None (Escape does nothing here). `answered` is false when
    the keys run out first.
  */
  method SelectColorScreen(keys: seq<Key>) returns (color: Option<int>, answered: bool)
    ensures var r := Select(0, |Colors|, keys, Some(Char('q')));
      && answered == !r.Pending?
      && (color.Some? <==> r.Picked?)
      && (r.Picked? ==> r.index < 6 && color.value == Colors[r.index].1)
      && (color.Some? ==> color.value in {1, 2, 3, 5, 6, 7})
  {
    SelectPosition(0, |Colors|, keys, Some(Char('q')));
    var r := SelectLoop(|Colors|, keys, Some(Char('q')));
    match r {
      case Picked(i) =>
        color, answered := Some(Colors[i].1), true;
      case Cancelled =>
        color, answered := None, true;
      case Pending(_) =>
        color, answered := None, false;
    }
  }

  /** Where the connection-type screen sends the user. */
  datatype ConnectionTarget = SavedDatabaseScreen | NewDatabaseScreen | Back | Undecided

  /** `connection_screen`: two options; Enter on the first opens the saved list, otherwise the new-database form; Escape goes back. */
  method ConnectionScreen(keys: seq<Key>) returns (target: ConnectionTarget)
    ensures var r := Select(0, 2, keys, Some(Esc));
      && (target == SavedDatabaseScreen <==> r == Picked(0))
      && (target == NewDatabaseScreen <==> r == Picked(1))
      && (target == Back <==> r == Cancelled)
      && (target == Undecided <==> r.Pending?)
  {
    SelectPosition(0, 2, keys, Some(Esc));
    var r := SelectLoop(2, keys, Some(Esc));
    match r {
      case Picked(i) =>
        target := if i == 0 then SavedDatabaseScreen else NewDatabaseScreen;
      case Cancelled =>
        target := Back;
      case Pending(_) =>
        target := Undecided;
    }
  }

  /** The five column types the create-table form offers. */
  const ColumnTypes: seq<string> := ["TEXT", "INTEGER", "REAL", "BLOB", "NUMERIC"]

  /**
    The column-type chooser of the create-table form: it has no cancel key, so
    it ends only on Enter, with one of the five types.
  */
  method ChooseColumnType(keys: seq<Key>) returns (chosen: Option<string>)
    ensures var r := Select(0, |ColumnTypes|, keys, None);
      && !r.Cancelled?
      && (chosen.Some? <==> r.Picked?)
      && (r.Picked? ==> r.index < 5 && chosen == Some(ColumnTypes[r.index]))
      && (chosen.Some? ==> chosen.value in ColumnTypes)
  {
    SelectPosition(0, |ColumnTypes|, keys, None);
    NoCancelKey(0, |ColumnTypes|, keys);
    var r := SelectLoop(|ColumnTypes|, keys, None);
    chosen := None;
    if r.Picked? {
      chosen := Some(ColumnTypes[r.index]);
    }
  }

  /** A picker with no cancel key is never cancelled. */
  lemma {:induction false} NoCancelKey(sel: nat, n: nat, keys: seq<Key>)
    requires sel < n
    ensures !Select(sel, n, keys, None).Cancelled?
    decreases |keys|
  {
    if |keys| > 0 && keys[0] != Enter {
      NoCancelKey(if keys[0] in {Up, Down} then Cycle(sel, keys[0], n) else sel, n, keys[1..]);
    }
  }

  // ---------------------------------------------------------------------
  // Menus: Enter runs the highlighted action and the menu stays open

  /**
    A menu over n options starting at `sel`: arrows move the cursor; Enter on
    the "back"/"quit" option or the quit key leaves; Enter on any other option
    runs it (recorded in `actions`) and the menu goes on. The keys are tried in
    the source's order: arrows, Enter, then the quit key. Returns the final
    cursor, the actions run, and whether the menu was left.
  */
  function MenuRun(sel: nat, n: nat, keys: seq<Key>, quitIndex: nat, quitKey: Key): (nat, seq<nat>, bool)
    requires sel < n
    decreases |keys|
  {
    if |keys| == 0 then (sel, [], false)
    else if keys[0] == Up || keys[0] == Down then MenuRun(Cycle(sel, keys[0], n), n, keys[1..], quitIndex, quitKey)
    else if keys[0] == Enter && sel == quitIndex then (sel, [], true)
    else if keys[0] == Enter then
      var (f, acts, quit) := MenuRun(sel, n, keys[1..], quitIndex, quitKey);
      (f, [sel] + acts, quit)
    else if keys[0] == quitKey then (sel, [], true)
    else MenuRun(sel, n, keys[1..], quitIndex, quitKey)
  }

  /**
    A menu's cursor stays among its options, it only runs options other than
    the quit option, and it is left only on the quit key or Enter on the quit
    option: while the menu is still open no quit key has been pressed (unless
    it is also an arrow or Enter, which take precedence).
  */
  lemma {:induction false} MenuRunSpec(sel: nat, n: nat, keys: seq<Key>, quitIndex: nat, quitKey: Key)
    requires sel < n
    ensures var (f, acts, quit) := MenuRun(sel, n, keys, quitIndex, quitKey);
      && f < n
      && (forall i :: 0 <= i < |acts| ==> acts[i] < n && acts[i] != quitIndex)
      && (!quit ==> forall i :: 0 <= i < |keys| ==> keys[i] != quitKey || keys[i] in {Up, Down, Enter})
      && |acts| <= |keys|
    decreases |keys|
  {
    if |keys| > 0 && !(keys[0] == Enter && sel == quitIndex) && (keys[0] in {Up, Down, Enter} || keys[0] != quitKey) {
      var next := if keys[0] == Up || keys[0] == Down then Cycle(sel, keys[0], n) else sel;
      MenuRunSpec(next, n, keys[1..], quitIndex, quitKey);
      var (f, acts, quit) := MenuRun(next, n, keys[1..], quitIndex, quitKey);
      if !quit {
        forall i | 0 <= i < |keys|
          ensures keys[i] != quitKey || keys[i] in {Up, Down, Enter}
        {
          if i > 0 {
            assert keys[i] == keys[1..][i - 1];
          }
        }
      }
    }
  }

  /** The menu loop over a local cursor, as `tools_menu` and `sql_input_screen` run it. */
  method MenuLoop(n: nat, keys: seq<Key>, quitIndex: nat, quitKey: Key) returns (actions: seq<nat>, left: bool)
    requires n > 0
    ensures (actions, left) == (MenuRun(0, n, keys, quitIndex, quitKey).1, MenuRun(0, n, keys, quitIndex, quitKey).2)
  {
    var selected: nat := 0;
    actions, left := [], false;
    var i := 0;
    ghost var whole := MenuRun(0, n, keys, quitIndex, quitKey);
    assert keys[0..] == keys;
    assert [] + whole.1 == whole.1;
    while i < |keys|
      invariant 0 <= i <= |keys| && selected < n
      invariant var (_, rest, quit) := MenuRun(selected, n, keys[i..], quitIndex, quitKey);
        whole.1 == actions + rest && whole.2 == quit
    {
      assert keys[i..][0] == keys[i] && keys[i..][1..] == keys[i + 1..];
      var key := keys[i];
      if key == Up {
        selected := (selected - 1) % n;
      } else if key == Down {
        selected := (selected + 1) % n;
      } else if key == Enter {
        if selected == quitIndex {
          assert actions + [] == actions;
          return actions, true;
        }
        ghost var rest := MenuRun(selected, n, keys[i + 1..], quitIndex, quitKey).1;
        assert actions + ([selected] + rest) == (actions + [selected]) + rest;
        actions := actions + [selected];
      } else if key == quitKey {
        assert actions + [] == actions;
        return actions, true;
      }
      i := i + 1;
    }
    assert keys[i..] == [];
    assert actions + [] == actions;
  }

  /** The eight entries of the tools menu; the last one goes back. */
  const ToolOptions: seq<string> := [
    "Insert Record", "Update Record", "Delete Record", "Create Table",
    "Drop Table", "View Table Structure", "Custom SQL Query", "Back to Main Menu"]

  /** `tools_menu`: Enter on "Back to Main Menu" or 'q' leaves; Enter elsewhere runs that tool. */
  method ToolsMenu(keys: seq<Key>) returns (tools: seq<string>, left: bool)
    ensures var (_, acts, quit) := MenuRun(0, |ToolOptions|, keys, 7, Char('q'));
      && left == quit
      && |tools| == |acts|
      && forall i :: 0 <= i < |tools| ==>
           acts[i] < 7 && tools[i] == ToolOptions[acts[i]] && tools[i] != "Back to Main Menu"
  {
    MenuRunSpec(0, |ToolOptions|, keys, 7, Char('q'));
    var acts;
    acts, left := MenuLoop(|ToolOptions|, keys, 7, Char('q'));
    tools := seq(|acts|, i requires 0 <= i < |acts| => ToolOptions[acts[i]]);
  }

  /** `sql_input_screen`: the same eight tools; Enter on the last one or Escape goes back. */
  method SqlInputScreen(keys: seq<Key>) returns (tools: seq<string>, left: bool)
    ensures var (_, acts, quit) := MenuRun(0, |ToolOptions|, keys, 7, Esc);
      && left == quit
      && |tools| == |acts|
      && forall i :: 0 <= i < |tools| ==>
           acts[i] < 7 && tools[i] == ToolOptions[acts[i]] && tools[i] != "Back to Main Menu"
  {
    MenuRunSpec(0, |ToolOptions|, keys, 7, Esc);
    var acts;
    acts, left := MenuLoop(|ToolOptions|, keys, 7, Esc);
    tools := seq(|acts|, i requires 0 <= i < |acts| => ToolOptions[acts[i]]);
  }

  /** The main menu of the modular program (seven entries) and of the stand-alone one (five). */
  const ModularMainOptions: seq<string> :=
    ["Connect to Database", "Browse Tables", "Execute SQL", "Tools", "Read Me", "Disconnect", "Quit"]
  const StandaloneMainOptions: seq<string> :=
    ["Connect to Database", "Browse Tables", "Execute SQL", "Disconnect", "Quit"]

  /**
    The application's main menu: its cursor `selected_option` is a field of
    the application object, so it survives between visits to the menu.
  */
  class MainMenu {
    const options: seq<string>
    var selectedOption: nat

    predicate Valid()
      reads this
    {
      0 < |options| && selectedOption < |options|
    }

    constructor (options: seq<string>)
      requires |options| > 0
      ensures Valid() && this.options == options && selectedOption == 0
    {
      this.options := options;
      selectedOption := 0;
    }

    /** `main_loop`: runs until 'q' or Enter on "Quit" (the last entry). */
    method Run(keys: seq<Key>) returns (actions: seq<string>, quit: bool)
      requires Valid()
      modifies this
      ensures Valid()
      ensures var (f, acts, q) := MenuRun(old(selectedOption), |options|, keys, |options| - 1, Char('q'));
        && selectedOption == f && quit == q
        && |actions| == |acts|
        && forall i :: 0 <= i < |actions| ==> acts[i] < |options| - 1 && actions[i] == options[acts[i]]
    {
      MenuRunSpec(selectedOption, |options|, keys, |options| - 1, Char('q'));
      ghost var whole := MenuRun(selectedOption, |options|, keys, |options| - 1, Char('q'));
      ghost var acts: seq<nat> := [];
      actions, quit := [], false;
      var i := 0;
      assert keys[0..] == keys;
      assert [] + whole.1 == whole.1;
      while i < |keys|
        invariant 0 <= i <= |keys| && Valid()
        invariant |actions| == |acts| && forall j :: 0 <= j < |acts| ==> acts[j] < |options| && actions[j] == options[acts[j]]
        invariant var (f, rest, q) := MenuRun(selectedOption, |options|, keys[i..], |options| - 1, Char('q'));
          whole == (f, acts + rest, q)
      {
        assert keys[i..][0] == keys[i] && keys[i..][1..] == keys[i + 1..];
        var key := keys[i];
        if key == Up {
          selectedOption := (selectedOption - 1) % |options|;
        } else if key == Down {
          selectedOption := (selectedOption + 1) % |options|;
        } else if key == Enter {
          if selectedOption == |options| - 1 {
            assert acts + [] == acts;
            return actions, true;
          }
          ghost var rest := MenuRun(selectedOption, |options|, keys[i + 1..], |options| - 1, Char('q')).1;
          assert acts + ([selectedOption] + rest) == (acts + [selectedOption]) + rest;
          acts := acts + [selectedOption];
          actions := actions + [options[selectedOption]];
        } else if key == Char('q') {
          assert acts + [] == acts;
          return actions, true;
        }
        i := i + 1;
      }
      assert keys[i..] == [];
      assert acts + [] == acts;
    }
  }

  // ---------------------------------------------------------------------
  // The Read-Me screen

  /** One key on the Read-Me screen: Up scrolls back while not at the top, Down on while lines remain below. */
  function ScrollStep(start: nat, key: Key, lineCount: nat, maxLines: int): nat
  {
    if key == Up && start > 0 then start - 1
    else if key == Down && start < lineCount - maxLines then start + 1
    else start
  }

  /** Every key keeps the first shown line between 0 and max(0, lines - max_lines). */
  lemma ScrollStepBounded(start: nat, key: Key, lineCount: nat, maxLines: int)
    requires start <= Max(0, lineCount - maxLines)
    ensures ScrollStep(start, key, lineCount, maxLines) <= Max(0, lineCount - maxLines)
    ensures key == Down && start < lineCount - maxLines ==> ScrollStep(start, key, lineCount, maxLines) == start + 1
    ensures ScrollStep(start, Up, lineCount, maxLines) == Max(0, start - 1)
  {
  }

  /** The lines shown: `content[start + i]` for i in `range(max_lines)` while within the content, each cut to w-4. */
  function VisibleLines(content: seq<string>, start: nat, maxLines: int, w: int): seq<string>
  {
    var count := Max(0, Min(maxLines, |content| - start));
    seq(count, i requires 0 <= i < count => Ellipsize(content[start + i], w - 4))
  }

  /**
    The screen shows the slice of at most max_lines lines from the first
    shown one, clipped to the content; on a window at least 7 wide each shown
    line fits in w-4 characters and is the line itself or its first w-7
    characters followed by "...".
  */
  lemma VisibleWindow(content: seq<string>, start: nat, maxLines: int, w: int)
    ensures var v := VisibleLines(content, start, maxLines, w);
      && |v| == Max(0, Min(maxLines, |content| - start))
      && (start + Max(0, maxLines) <= |content| ==> |v| == Max(0, maxLines))
      && forall i :: 0 <= i < |v| ==>
           && start + i < |content|
           && (w >= 7 ==> |v[i]| <= w - 4)
           && (|content[start + i]| <= w - 4 ==> v[i] == content[start + i])
           && (|content[start + i]| > w - 4 && w >= 7 ==> v[i] == content[start + i][..w - 7] + "...")
  {
    var v := VisibleLines(content, start, maxLines, w);
    forall i | 0 <= i < |v|
      ensures start + i < |content|
      ensures w >= 7 ==> |v[i]| <= w - 4
      ensures |content[start + i]| <= w - 4 ==> v[i] == content[start + i]
      ensures |content[start + i]| > w - 4 && w >= 7 ==> v[i] == content[start + i][..w - 7] + "..."
    {
      assert v[i] == Ellipsize(content[start + i], w - 4);
      if w >= 7 {
        EllipsizeBounded(content[start + i], w - 4);
      }
    }
  }

  /** The first shown line after a sequence of keys, up to the first 'q'; and whether 'q' came. */
  function ScrollRun(start: nat, keys: seq<Key>, lineCount: nat, maxLines: int): (nat, bool)
    decreases |keys|
  {
    if |keys| == 0 then (start, false)
    else if keys[0] == Char('q') then (start, true)
    else ScrollRun(ScrollStep(start, keys[0], lineCount, maxLines), keys[1..], lineCount, maxLines)
  }

  /**
    `read_me_screen`: starts at the top with `max_lines = h - 4` and scrolls
    until 'q'; the first shown line always stays within the scroll range.
  */
  method ReadMeScreen(content: seq<string>, h: int, keys: seq<Key>) returns (start: nat, quit: bool)
    ensures (start, quit) == ScrollRun(0, keys, |content|, h - 4)
    ensures start <= Max(0, |content| - (h - 4))
  {
    var maxLines := h - 4;
    start := 0;
    var i := 0;
    while i < |keys|
      invariant 0 <= i <= |keys|
      invariant start <= Max(0, |content| - maxLines)
      invariant ScrollRun(0, keys, |content|, maxLines) == ScrollRun(start, keys[i..], |content|, maxLines)
    {
      assert keys[i..][0] == keys[i] && keys[i..][1..] == keys[i + 1..];
      var key := keys[i];
      if key == Up && start > 0 {
        start := start - 1;
      } else if key == Down && start < |content| - maxLines {
        start := start + 1;
      } else if key == Char('q') {
        return start, true;
      }
      i := i + 1;
    }
    quit := false;
  }
}

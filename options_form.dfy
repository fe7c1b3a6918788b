/**
 * The logic of `ServerOptionsForm` (ServerOptionsForm.cs:15-119): the root-directory
 * history kept in the combo box, its copy into the settings on close and its
 * restore on load, and the commands the form forwards to `Sherpa`.
 */
module Options {
  import opened Text
  import opened Lifecycle
  import opened Serving
  import opened App

  // ---------------------------------------------------------------------------
  // The history list, as values

  /** The text with every trailing '\\' and '/' removed. */
  function StripSeparators(s: string): string
    decreases |s|
  {
    if |s| > 0 && IsSeparator(s[|s| - 1]) then StripSeparators(s[..|s| - 1]) else s
  }

  /** Some item equals `t` once both are lower-cased. */
  predicate ContainsIgnoringCase(items: seq<string>, t: string) {
    exists j :: 0 <= j < |items| && Lower(items[j]) == Lower(t)
  }

  /** The combo items after the user types `text`, given the existing directories. */
  function HistoryAfter(items: seq<string>, text: string, dirs: set<string>): seq<string> {
    if text !in dirs then items
    else
      var t := StripSeparators(text);
      if ContainsIgnoringCase(items, t) then items else items + [t]
  }

  /** The stripped text is a prefix of the original, ends in neither separator, and only separators were dropped. */
  lemma {:induction false} StripShape(s: string)
    ensures var t := StripSeparators(s);
      && |t| <= |s| && t == s[..|t|]
      && (|t| == 0 || !IsSeparator(t[|t| - 1]))
      && forall k :: |t| <= k < |s| ==> IsSeparator(s[k])
    decreases |s|
  {
    if |s| > 0 && IsSeparator(s[|s| - 1]) {
      var p := s[..|s| - 1];
      StripShape(p);
      var t := StripSeparators(p);
      assert s[..|t|] == p[..|t|];
    }
  }

  /** Stripping twice strips nothing more. */
  lemma StripIdempotent(s: string)
    ensures StripSeparators(StripSeparators(s)) == StripSeparators(s)
  {
    StripShape(s);
  }

  /**
   * A text that is not an existing directory changes nothing. Otherwise the
   * stripped text is appended exactly when no item matches it ignoring case; at
   * most one item is added, at the end, and the others keep their values and order.
   */
  lemma HistoryAppendsOnlyNew(items: seq<string>, text: string, dirs: set<string>)
    ensures text !in dirs ==> HistoryAfter(items, text, dirs) == items
    ensures text in dirs ==>
      var r := HistoryAfter(items, text, dirs);
      && (r == items + [StripSeparators(text)] <==> !ContainsIgnoringCase(items, StripSeparators(text)))
      && (r == items <==> ContainsIgnoringCase(items, StripSeparators(text)))
  {
    if text in dirs {
      var r := HistoryAfter(items, text, dirs);
      assert |items + [StripSeparators(text)]| != |items|;
    }
  }

  /** Typing the same text again adds nothing more: the first append makes the lookup succeed. */
  lemma HistoryIdempotent(items: seq<string>, text: string, dirs: set<string>)
    ensures HistoryAfter(HistoryAfter(items, text, dirs), text, dirs) == HistoryAfter(items, text, dirs)
  {
    if text in dirs {
      var t := StripSeparators(text);
      var r := HistoryAfter(items, text, dirs);
      if !ContainsIgnoringCase(items, t) {
        assert r[|items|] == t;
        assert ContainsIgnoringCase(r, t);
      }
    }
  }

  /** Two spellings that differ only in letter case and trailing separators share one entry. */
  lemma HistoryIgnoresCaseAndSeparators(items: seq<string>, a: string, b: string, dirs: set<string>)
    requires a in dirs && b in dirs
    requires EqualIgnoringCase(StripSeparators(a), StripSeparators(b))
    ensures HistoryAfter(HistoryAfter(items, a, dirs), b, dirs) == HistoryAfter(items, a, dirs)
  {
    var ta := StripSeparators(a);
    var tb := StripSeparators(b);
    var r := HistoryAfter(items, a, dirs);
    if ContainsIgnoringCase(items, ta) {
      var j :| 0 <= j < |items| && Lower(items[j]) == Lower(ta);
      assert Lower(r[j]) == Lower(tb);
    } else {
      assert Lower(r[|items|]) == Lower(tb);
    }
  }

  // ---------------------------------------------------------------------------
  // The two loops of comboRoot_TextUpdate

  /** ServerOptionsForm.cs:67-69: drop the last character while it is a separator. */
  method StripTrailingSeparators(text: string) returns (temp: string)
    ensures temp == StripSeparators(text)
    ensures |temp| <= |text| && temp == text[..|temp|]
    ensures |temp| == 0 || !IsSeparator(temp[|temp| - 1])
    ensures forall k :: |temp| <= k < |text| ==> IsSeparator(text[k])
  {
    temp := text;
    while |temp| > 0 && (temp[|temp| - 1] == '\\' || temp[|temp| - 1] == '/')
      invariant |temp| <= |text| && temp == text[..|temp|]
      invariant forall k :: |temp| <= k < |text| ==> IsSeparator(text[k])
      invariant StripSeparators(temp) == StripSeparators(text)
      decreases |temp|
    {
      temp := temp[..|temp| - 1];
    }
  }

  /** ServerOptionsForm.cs:70-81: search the items for the lower-cased text, stopping at the first match. */
  method FindIgnoringCase(items: seq<string>, temp: string) returns (itemfound: bool)
    ensures itemfound <==> ContainsIgnoringCase(items, temp)
  {
    itemfound := false;
    var templc := Lower(temp);
    var i := 0;
    while i < |items|
      invariant 0 <= i <= |items|
      invariant forall j :: 0 <= j < i ==> Lower(items[j]) != templc
    {
      if templc == Lower(items[i]) {
        itemfound := true;
        break;
      }
      i := i + 1;
    }
  }

  // ---------------------------------------------------------------------------
  // Saving and restoring the history

  /** ServerOptionsForm.cs:27-35 as written: the saved list is replaced by an empty one before it is read. */
  function RestoreAsWritten(items: seq<string>, saved: seq<string>): (seq<string>, seq<string>) {
    (items, [])
  }

  /** The restore the load evidently intends: every saved entry is added to the combo, in order. */
  function Restore(items: seq<string>, saved: seq<string>): (seq<string>, seq<string>) {
    (items + saved, saved)
  }

  /**
   * As written, a non-empty history saved on close never comes back on load, and the
   * saved copy is lost, whereas the corrected restore brings it back.
   */
  lemma RestoreAsWrittenLosesHistory(items: seq<string>, saved: seq<string>)
    requires saved != []
    ensures RestoreAsWritten(items, saved) == (items, [])
    ensures RestoreAsWritten(items, saved) != Restore(items, saved)
  {
  }

  // ---------------------------------------------------------------------------
  // The form

  class ServerOptionsForm {
    /** `comboRoot.Text`, `comboRoot.Items` and `editPort.Value`. */
    var text: string
    var items: seq<string>
    var portValue: int
    var app: Sherpa

    ghost predicate Valid()
      reads this, app, app.server
    {
      app.Valid()
    }

    constructor (a: Sherpa)
      requires a.Valid()
      ensures Valid() && app == a && items == [] && text == "" && portValue == 8000
    {
      app := a;
      text := "";
      items := [];
      portValue := 8000;
    }

    /**
     * ServerOptionsForm.cs:22-38, with the restore corrected: show the stored root
     * and port (the port's change event forwards the stored value, which the guard
     * drops), add the saved roots to the combo, then request a start.
     */
    method Load()
      requires Valid()
      requires 1 <= app.port <= 65535
      modifies this, app, app.server, app.server.pending
      ensures Valid() && app == old(app) && app.server == old(app.server)
      ensures text == old(app.rootDir) && portValue == old(app.port)
      ensures (items, app.previousRootDirs) == Restore(old(items), old(app.previousRootDirs))
      ensures app.port == old(app.port) && app.rootDir == old(app.rootDir)
      ensures app.formOpen == old(app.formOpen) && app.formLog == old(app.formLog)
      ensures app.formStates == old(app.formStates)
      ensures app.server.Model() == Lifecycle.StartServer(old(app.server.Model()))
    {
      text := app.rootDir;
      portValue := app.port;
      app.UpdatePort(portValue);

      var saved := app.previousRootDirs;
      var combo := items;
      var i := 0;
      while i < |saved|
        invariant 0 <= i <= |saved|
        invariant combo == old(items) + saved[..i]
      {
        combo := combo + [saved[i]];
        i := i + 1;
      }
      assert saved[..i] == saved;
      items := combo;

      app.StartServer();
    }

    /** ServerOptionsForm.cs:40-52, without the save to disk: request a stop, then copy the items into the settings. */
    method FormClosed()
      requires Valid()
      modifies app, app.server.pending
      ensures Valid() && app.server == old(app.server)
      ensures app.previousRootDirs == items
      ensures app.port == old(app.port) && app.rootDir == old(app.rootDir)
      ensures app.formOpen == old(app.formOpen) && app.formLog == old(app.formLog)
      ensures app.formStates == old(app.formStates)
      ensures app.server.Model() == Lifecycle.StopServer(old(app.server.Model()))
    {
      app.StopServer();
      var copy := [];
      var i := 0;
      while i < |items|
        invariant 0 <= i <= |items|
        invariant copy == items[..i]
      {
        copy := copy + [items[i]];
        i := i + 1;
      }
      assert items[..i] == items;
      app.previousRootDirs := copy;
    }

    /** ServerOptionsForm.cs:54-57. */
    method PortValueChanged()
      requires Valid()
      modifies app, app.server, app.server.pending
      ensures Valid() && app.server == old(app.server)
      ensures app.port == portValue
      ensures app.rootDir == old(app.rootDir) && app.previousRootDirs == old(app.previousRootDirs)
      ensures app.formOpen == old(app.formOpen) && app.formLog == old(app.formLog)
      ensures app.formStates == old(app.formStates)
      ensures old(app.port) == portValue ==> app.server.Model() == old(app.server.Model())
      ensures old(app.port) != portValue ==> app.server.Model() == Lifecycle.UpdatePort(old(app.server.Model()), portValue)
    {
      app.UpdatePort(portValue);
    }

    /**
     * ServerOptionsForm.cs:59-90: when the typed text is an existing directory,
     * record its stripped form in the history if it is new, and forward the
     * original, unstripped text as the root; otherwise do nothing.
     */
    method TextUpdate(dirs: set<string>)
      requires Valid()
      modifies this, app, app.server
      ensures Valid() && app == old(app) && app.server == old(app.server) && text == old(text)
      ensures items == HistoryAfter(old(items), text, dirs) && portValue == old(portValue)
      ensures app.server.pending == old(app.server.pending)
      ensures app.port == old(app.port) && app.previousRootDirs == old(app.previousRootDirs)
      ensures app.formOpen == old(app.formOpen) && app.formLog == old(app.formLog)
      ensures app.formStates == old(app.formStates)
      ensures text !in dirs ==> app.rootDir == old(app.rootDir) && app.server.Model() == old(app.server.Model())
      ensures text in dirs ==> app.rootDir == text
      ensures text in dirs && old(app.rootDir) != text ==>
        app.server.Model() == Lifecycle.UpdateRootDir(old(app.server.Model()), text)
      ensures old(app.rootDir) == text ==> app.server.Model() == old(app.server.Model())
    {
      if text in dirs {
        var temp := StripTrailingSeparators(text);
        var itemfound := FindIgnoringCase(items, temp);
        if !itemfound {
          items := items + [temp];
        }
        app.UpdateRootDir(text);
      }
    }

    /** ServerOptionsForm.cs:115-118: a picked history entry becomes the root. */
    method SelectionChangeCommitted(selected: nat)
      requires Valid() && selected < |items|
      modifies app, app.server
      ensures Valid() && app.server == old(app.server) && app.rootDir == items[selected]
      ensures app.server.pending == old(app.server.pending)
      ensures old(app.rootDir) == items[selected] ==> app.server.Model() == old(app.server.Model())
      ensures old(app.rootDir) != items[selected] ==>
        app.server.Model() == Lifecycle.UpdateRootDir(old(app.server.Model()), items[selected])
      ensures app.port == old(app.port) && app.previousRootDirs == old(app.previousRootDirs)
      ensures app.formOpen == old(app.formOpen) && app.formLog == old(app.formLog)
      ensures app.formStates == old(app.formStates)
    {
      app.UpdateRootDir(items[selected]);
    }
  }

  /**
   * Closing the form and loading a new one over the same `Sherpa` (corrected
   * restore): the new combo holds exactly the items the old one had, in order,
   * the saved copy keeps them too, and the server sees a stop and then a start.
   */
  method CloseThenReopen(f: ServerOptionsForm) returns (g: ServerOptionsForm)
    requires f.Valid() && 1 <= f.app.port <= 65535
    modifies f.app, f.app.server, f.app.server.pending
    ensures g.Valid() && g.app == f.app && g.app.server == old(f.app.server)
    ensures g.items == old(f.items) && g.app.previousRootDirs == old(f.items)
    ensures g.text == old(f.app.rootDir) && g.portValue == old(f.app.port)
    ensures g.app.server.Model() == Lifecycle.StartServer(Lifecycle.StopServer(old(f.app.server.Model())))
  {
    f.FormClosed();
    g := new ServerOptionsForm(f.app);
    g.Load();
    assert [] + old(f.items) == old(f.items);
  }
}

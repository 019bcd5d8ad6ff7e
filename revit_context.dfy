/**
 * The lazily resolved Revit handles of the shared library (`_RevitContext`). Each of the four
 * handles (UI application, active UI document, database document, application) is looked up
 * on first access by trying its sources in a fixed order, and the result, found or not, is
 * cached until the context is reset.
 */
module RevitContext {
  import opened Wrappers

  /** An object of the host environment, compared by identity. */
  datatype Handle = Handle(id: nat)

  /**
   * What the running environment offers: the `DocumentManager` class of RevitServices, the
   * `pyrevit.revit` module and the `__revit__` global (each absent when its import or lookup
   * failed), and the attributes each object answers with an object. An attribute that is
   * missing, is None or raises when read is absent from `attrs`.
   */
  datatype Host = Host(
    documentManager: Option<Handle>,
    pyrevitRevit: Option<Handle>,
    globalRevit: Option<Handle>,
    attrs: map<(Handle, string), Handle>)

  /** `_safe_getattr`: None for a None source and for a lookup that fails or yields None. */
  function SafeGetAttr(h: Host, source: Option<Handle>, name: string): (r: Option<Handle>)
    ensures r.Some? <==> source.Some? && (source.value, name) in h.attrs
    ensures r.Some? ==> r.value == h.attrs[(source.value, name)]
  {
    match source
    case None => None
    case Some(obj) => if (obj, name) in h.attrs then Some(h.attrs[(obj, name)]) else None
  }

  /** The first candidate that is not None, or None when all of them are. */
  function FirstFound(candidates: seq<Option<Handle>>): (r: Option<Handle>)
    ensures r.None? <==> forall i :: 0 <= i < |candidates| ==> candidates[i].None?
    ensures r.Some? ==> exists i :: 0 <= i < |candidates| && candidates[i] == r &&
                                    (forall j :: 0 <= j < i ==> candidates[j].None?)
  {
    if candidates == [] then None
    else if candidates[0].Some? then candidates[0]
    else
      var rest := FirstFound(candidates[1..]);
      assert forall i :: 1 <= i < |candidates| ==> candidates[i] == candidates[1..][i - 1];
      rest
  }

  // ---------------------------------------------------------------------------
  // The reference: each handle as the first source that yields one
  // ---------------------------------------------------------------------------

  function DocumentManagerInstance(h: Host): Option<Handle>
  {
    SafeGetAttr(h, h.documentManager, "Instance")
  }

  /** `DocumentManager.Instance.CurrentUIApplication`, `revit.uiapp`, `__revit__.Application`. */
  function UiAppSources(h: Host): seq<Option<Handle>>
  {
    [SafeGetAttr(h, DocumentManagerInstance(h), "CurrentUIApplication"),
     SafeGetAttr(h, h.pyrevitRevit, "uiapp"),
     SafeGetAttr(h, h.globalRevit, "Application")]
  }

  function FreshUiApp(h: Host): Option<Handle>
  {
    FirstFound(UiAppSources(h))
  }

  /** `uiapp.ActiveUIDocument`, `revit.uidoc`, `__revit__.ActiveUIDocument`. */
  function FreshUiDoc(h: Host): Option<Handle>
  {
    FirstFound([SafeGetAttr(h, FreshUiApp(h), "ActiveUIDocument"),
                SafeGetAttr(h, h.pyrevitRevit, "uidoc"),
                SafeGetAttr(h, h.globalRevit, "ActiveUIDocument")])
  }

  /**
   * `DocumentManager.Instance.CurrentDBDocument`, `revit.doc`, `uidoc.Document`,
   * `__revit__.ActiveUIDocument.Document`.
   */
  function FreshDoc(h: Host): Option<Handle>
  {
    FirstFound([SafeGetAttr(h, DocumentManagerInstance(h), "CurrentDBDocument"),
                SafeGetAttr(h, h.pyrevitRevit, "doc"),
                SafeGetAttr(h, FreshUiDoc(h), "Document"),
                SafeGetAttr(h, SafeGetAttr(h, h.globalRevit, "ActiveUIDocument"), "Document")])
  }

  /** `uiapp.Application`, `doc.Application`, `__revit__.Application`. */
  function FreshApp(h: Host): Option<Handle>
  {
    FirstFound([SafeGetAttr(h, FreshUiApp(h), "Application"),
                SafeGetAttr(h, FreshDoc(h), "Application"),
                SafeGetAttr(h, h.globalRevit, "Application")])
  }

  // ---------------------------------------------------------------------------
  // The cache and the resolution steps, branch by branch
  // ---------------------------------------------------------------------------

  /**
   * The four cached slots; `None` is the sentinel of a slot not yet resolved, `Some(None)` a
   * slot resolved to nothing.
   */
  datatype Slots = Slots(
    uiapp: Option<Option<Handle>>,
    uidoc: Option<Option<Handle>>,
    doc: Option<Option<Handle>>,
    app: Option<Option<Handle>>)

  /** The state `reset` leaves. */
  const Unresolved := Slots(None, None, None, None)

  /** Every slot filled in `s` holds the same value in `t`. */
  predicate Extends(s: Slots, t: Slots)
  {
    (s.uiapp.Some? ==> t.uiapp == s.uiapp) && (s.uidoc.Some? ==> t.uidoc == s.uidoc) &&
    (s.doc.Some? ==> t.doc == s.doc) && (s.app.Some? ==> t.app == s.app)
  }

  /** Every filled slot holds what a fresh resolution against `h` yields. */
  predicate ResolvedFrom(s: Slots, h: Host)
  {
    (s.uiapp.Some? ==> s.uiapp.value == FreshUiApp(h)) &&
    (s.uidoc.Some? ==> s.uidoc.value == FreshUiDoc(h)) &&
    (s.doc.Some? ==> s.doc.value == FreshDoc(h)) &&
    (s.app.Some? ==> s.app.value == FreshApp(h))
  }

  /**
   * Resolving the UI document or the application always resolves the UI application first,
   * so neither slot is filled while the UI application slot is empty.
   */
  predicate Coherent(s: Slots)
  {
    (s.uidoc.Some? ==> s.uiapp.Some?) && (s.app.Some? ==> s.uiapp.Some?)
  }

  /** `_resolve_uiapp`: the first of its three sources that yields a handle. */
  function ResolveUiApp(h: Host): (r: Option<Handle>)
    ensures r == FreshUiApp(h)
  {
    FirstFoundOfThree(SafeGetAttr(h, DocumentManagerInstance(h), "CurrentUIApplication"),
                      SafeGetAttr(h, h.pyrevitRevit, "uiapp"),
                      SafeGetAttr(h, h.globalRevit, "Application"));
    var fromManager :=
      if h.documentManager.Some? then
        SafeGetAttr(h, SafeGetAttr(h, h.documentManager, "Instance"), "CurrentUIApplication")
      else None;
    if fromManager.Some? then fromManager
    else
      var fromPyRevit := if h.pyrevitRevit.Some? then SafeGetAttr(h, h.pyrevitRevit, "uiapp") else None;
      if fromPyRevit.Some? then fromPyRevit
      else
        var fromGlobal := if h.globalRevit.Some? then SafeGetAttr(h, h.globalRevit, "Application") else None;
        if fromGlobal.Some? then fromGlobal else None
  }

  /** `uiapp()`: the cached value, or a resolution that fills the slot. */
  function UiAppStep(h: Host, s: Slots): (r: (Option<Handle>, Slots))
    ensures r.1 == s.(uiapp := Some(r.0))
  {
    if s.uiapp.Some? then (s.uiapp.value, s)
    else
      var v := ResolveUiApp(h);
      (v, s.(uiapp := Some(v)))
  }

  /**
   * `_resolve_uidoc`, given the UI application `uiapp()` returned: the first of its three
   * sources that yields a handle.
   */
  function ResolveUiDocFrom(h: Host, uiapp: Option<Handle>): (r: Option<Handle>)
    ensures r == FirstFound([SafeGetAttr(h, uiapp, "ActiveUIDocument"),
                             SafeGetAttr(h, h.pyrevitRevit, "uidoc"),
                             SafeGetAttr(h, h.globalRevit, "ActiveUIDocument")])
  {
    FirstFoundOfThree(SafeGetAttr(h, uiapp, "ActiveUIDocument"),
                      SafeGetAttr(h, h.pyrevitRevit, "uidoc"),
                      SafeGetAttr(h, h.globalRevit, "ActiveUIDocument"));
    var fromUiApp := SafeGetAttr(h, uiapp, "ActiveUIDocument");
    if fromUiApp.Some? then fromUiApp
    else
      var fromPyRevit := if h.pyrevitRevit.Some? then SafeGetAttr(h, h.pyrevitRevit, "uidoc") else None;
      if fromPyRevit.Some? then fromPyRevit
      else
        var fromGlobal :=
          if h.globalRevit.Some? then SafeGetAttr(h, h.globalRevit, "ActiveUIDocument") else None;
        if fromGlobal.Some? then fromGlobal else None
  }

  /** `uidoc()`. */
  function UiDocStep(h: Host, s: Slots): (r: (Option<Handle>, Slots))
    ensures r.1 == s.(uiapp := r.1.uiapp, uidoc := Some(r.0))
    ensures s.uidoc.None? ==> r.1.uiapp.Some?
  {
    if s.uidoc.Some? then (s.uidoc.value, s)
    else
      var (uiapp, s1) := UiAppStep(h, s);
      var v := ResolveUiDocFrom(h, uiapp);
      (v, s1.(uidoc := Some(v)))
  }

  /** `_resolve_doc`: reaches for `uidoc()` only when the first two sources yield nothing. */
  function ResolveDoc(h: Host, s: Slots): (r: (Option<Handle>, Slots))
    ensures r.1.doc == s.doc && r.1.app == s.app
  {
    var fromManager :=
      if h.documentManager.Some? then
        SafeGetAttr(h, SafeGetAttr(h, h.documentManager, "Instance"), "CurrentDBDocument")
      else None;
    if fromManager.Some? then (fromManager, s)
    else
      var fromPyRevit := if h.pyrevitRevit.Some? then SafeGetAttr(h, h.pyrevitRevit, "doc") else None;
      if fromPyRevit.Some? then (fromPyRevit, s)
      else
        var (uidoc, s1) := UiDocStep(h, s);
        var fromUiDoc := SafeGetAttr(h, uidoc, "Document");
        if fromUiDoc.Some? then (fromUiDoc, s1)
        else
          var fromGlobal :=
            if h.globalRevit.Some? then
              SafeGetAttr(h, SafeGetAttr(h, h.globalRevit, "ActiveUIDocument"), "Document")
            else None;
          if fromGlobal.Some? then (fromGlobal, s1) else (None, s1)
  }

  /** `doc()`. */
  function DocStep(h: Host, s: Slots): (r: (Option<Handle>, Slots))
    ensures r.1.doc == Some(r.0) && r.1.app == s.app
  {
    if s.doc.Some? then (s.doc.value, s)
    else
      var (v, s1) := ResolveDoc(h, s);
      (v, s1.(doc := Some(v)))
  }

  /** `_resolve_app`: always resolves `uiapp()`, and `doc()` when that has no application. */
  function ResolveApp(h: Host, s: Slots): (r: (Option<Handle>, Slots))
    ensures r.1.app == s.app && r.1.uiapp.Some?
  {
    var (uiapp, s1) := UiAppStep(h, s);
    var fromUiApp := SafeGetAttr(h, uiapp, "Application");
    if fromUiApp.Some? then (fromUiApp, s1)
    else
      var (doc, s2) := DocStep(h, s1);
      var fromDoc := SafeGetAttr(h, doc, "Application");
      if fromDoc.Some? then (fromDoc, s2)
      else
        var fromGlobal := if h.globalRevit.Some? then SafeGetAttr(h, h.globalRevit, "Application") else None;
        if fromGlobal.Some? then (fromGlobal, s2) else (None, s2)
  }

  /** `app()`. */
  function AppStep(h: Host, s: Slots): (r: (Option<Handle>, Slots))
    ensures r.1.app == Some(r.0)
  {
    if s.app.Some? then (s.app.value, s)
    else
      var (v, s1) := ResolveApp(h, s);
      (v, s1.(app := Some(v)))
  }

  // ---------------------------------------------------------------------------
  // Properties of the steps
  // ---------------------------------------------------------------------------

  lemma FirstFoundOfThree(a: Option<Handle>, b: Option<Handle>, c: Option<Handle>)
    ensures FirstFound([a, b, c]) == if a.Some? then a else if b.Some? then b else c
  {
    assert [a, b, c][1..] == [b, c];
    assert [b, c][1..] == [c];
    assert [c][1..] == [];
    assert FirstFound([c]) == c;
    assert FirstFound([b, c]) == if b.Some? then b else c;
  }

  lemma FirstFoundOfFour(a: Option<Handle>, b: Option<Handle>, c: Option<Handle>, d: Option<Handle>)
    ensures FirstFound([a, b, c, d]) == if a.Some? then a else if b.Some? then b else if c.Some? then c else d
  {
    assert [a, b, c, d][1..] == [b, c, d];
    FirstFoundOfThree(b, c, d);
  }

  /**
   * A step on a cache filled from `h`, against the same `h`, returns the fresh value and leaves
   * a cache still filled from `h`: caching never changes what is returned while the host stays
   * the same.
   */
  lemma UiAppStepSound(h: Host, s: Slots)
    requires ResolvedFrom(s, h)
    ensures UiAppStep(h, s).0 == FreshUiApp(h) && ResolvedFrom(UiAppStep(h, s).1, h)
  {
  }

  lemma UiDocStepSound(h: Host, s: Slots)
    requires ResolvedFrom(s, h)
    ensures UiDocStep(h, s).0 == FreshUiDoc(h) && ResolvedFrom(UiDocStep(h, s).1, h)
  {
    UiAppStepSound(h, s);
  }

  lemma DocStepSound(h: Host, s: Slots)
    requires ResolvedFrom(s, h)
    ensures DocStep(h, s).0 == FreshDoc(h) && ResolvedFrom(DocStep(h, s).1, h)
  {
    FirstFoundOfFour(SafeGetAttr(h, DocumentManagerInstance(h), "CurrentDBDocument"),
                     SafeGetAttr(h, h.pyrevitRevit, "doc"),
                     SafeGetAttr(h, FreshUiDoc(h), "Document"),
                     SafeGetAttr(h, SafeGetAttr(h, h.globalRevit, "ActiveUIDocument"), "Document"));
    if s.doc.None? {
      UiDocStepSound(h, s);
    }
  }

  lemma AppStepSound(h: Host, s: Slots)
    requires ResolvedFrom(s, h)
    ensures AppStep(h, s).0 == FreshApp(h) && ResolvedFrom(AppStep(h, s).1, h)
  {
    FirstFoundOfThree(SafeGetAttr(h, FreshUiApp(h), "Application"),
                      SafeGetAttr(h, FreshDoc(h), "Application"),
                      SafeGetAttr(h, h.globalRevit, "Application"));
    if s.app.None? {
      UiAppStepSound(h, s);
      DocStepSound(h, UiAppStep(h, s).1);
    }
  }

  /** A step only fills slots: what was cached stays cached, and the state stays coherent. */
  lemma StepsExtendAndStayCoherent(h: Host, s: Slots)
    requires Coherent(s)
    ensures Extends(s, UiAppStep(h, s).1) && Coherent(UiAppStep(h, s).1)
    ensures Extends(s, UiDocStep(h, s).1) && Coherent(UiDocStep(h, s).1)
    ensures Extends(s, DocStep(h, s).1) && Coherent(DocStep(h, s).1)
    ensures Extends(s, AppStep(h, s).1) && Coherent(AppStep(h, s).1)
  {
    if s.doc.None? && ResolveDoc(h, s).1 != s {
      assert ResolveDoc(h, s).1 == UiDocStep(h, s).1;
    }
    if s.app.None? {
      var s1 := UiAppStep(h, s).1;
      assert Coherent(s1) && Extends(s, s1);
    }
  }

  /**
   * Once a handle is cached, a later access returns it again and changes nothing, whatever the
   * host then offers, and even when the cached value is "nothing found".
   */
  lemma SecondAccessIsCached(h1: Host, h2: Host, s: Slots)
    ensures UiAppStep(h2, UiAppStep(h1, s).1) == UiAppStep(h1, s)
    ensures UiDocStep(h2, UiDocStep(h1, s).1) == UiDocStep(h1, s)
    ensures DocStep(h2, DocStep(h1, s).1) == DocStep(h1, s)
    ensures AppStep(h2, AppStep(h1, s).1) == AppStep(h1, s)
  {
  }

  /**
   * A handle read against one host stays what later reads return after the host changes,
   * until `reset`; after it the new host is consulted.
   */
  lemma StaleUntilReset(h1: Host, h2: Host)
    ensures UiAppStep(h2, UiAppStep(h1, Unresolved).1).0 == FreshUiApp(h1)
    ensures UiAppStep(h2, Unresolved).0 == FreshUiApp(h2)
    ensures DocStep(h2, DocStep(h1, Unresolved).1).0 == FreshDoc(h1)
    ensures DocStep(h2, Unresolved).0 == FreshDoc(h2)
  {
    UiAppStepSound(h1, Unresolved);
    UiAppStepSound(h2, Unresolved);
    DocStepSound(h1, Unresolved);
    DocStepSound(h2, Unresolved);
    SecondAccessIsCached(h1, h2, Unresolved);
  }

  /** Outside Revit, with no source available, nothing resolves. */
  lemma NoHostResolvesNothing(attrs: map<(Handle, string), Handle>)
    ensures var h := Host(None, None, None, attrs);
      FreshUiApp(h).None? && FreshUiDoc(h).None? && FreshDoc(h).None? && FreshApp(h).None?
  {
  }

  // ---------------------------------------------------------------------------
  // The context object and the public accessors
  // ---------------------------------------------------------------------------

  /** `_RevitContext`: the four cached slots, updated in place. */
  class Context {
    var uiappSlot: Option<Option<Handle>>
    var uidocSlot: Option<Option<Handle>>
    var docSlot: Option<Option<Handle>>
    var appSlot: Option<Option<Handle>>

    function State(): Slots
      reads this
    {
      Slots(uiappSlot, uidocSlot, docSlot, appSlot)
    }

    /**
     * The class invariant: the slots are `Coherent`. Every method keeps it, which is what
     * `StepsExtendAndStayCoherent` states of the step functions the methods follow; the
     * `Context` is therefore never in a state a sequence of accesses could not reach.
     */
    predicate Valid()
      reads this
    {
      Coherent(State())
    }

    constructor()
      ensures State() == Unresolved && Valid()
    {
      uiappSlot, uidocSlot, docSlot, appSlot := None, None, None, None;
    }

    /** `reset`: every slot back to the sentinel. */
    method Reset()
      modifies this
      ensures State() == Unresolved && Valid()
    {
      uiappSlot, uidocSlot, docSlot, appSlot := None, None, None, None;
    }

    /** `uiapp`. */
    method UiApp(h: Host) returns (v: Option<Handle>)
      requires Valid()
      modifies this
      ensures (v, State()) == UiAppStep(h, old(State()))
      ensures Valid()
    {
      if uiappSlot.None? {
        uiappSlot := Some(ResolveUiApp(h));
      }
      v := uiappSlot.value;
    }

    /** `uidoc`, resolving through `uiapp` when its slot is empty. */
    method UiDoc(h: Host) returns (v: Option<Handle>)
      requires Valid()
      modifies this
      ensures (v, State()) == UiDocStep(h, old(State()))
      ensures Valid()
    {
      if uidocSlot.None? {
        var uiapp := UiApp(h);
        uidocSlot := Some(ResolveUiDocFrom(h, uiapp));
      }
      v := uidocSlot.value;
    }

    /** `_resolve_doc`. */
    method ResolveDocument(h: Host) returns (v: Option<Handle>)
      requires Valid()
      modifies this
      ensures (v, State()) == ResolveDoc(h, old(State()))
      ensures Valid()
    {
      if h.documentManager.Some? {
        var dm := SafeGetAttr(h, h.documentManager, "Instance");
        var doc := SafeGetAttr(h, dm, "CurrentDBDocument");
        if doc.Some? {
          return doc;
        }
      }
      if h.pyrevitRevit.Some? {
        var doc := SafeGetAttr(h, h.pyrevitRevit, "doc");
        if doc.Some? {
          return doc;
        }
      }
      var uidoc := UiDoc(h);
      var doc := SafeGetAttr(h, uidoc, "Document");
      if doc.Some? {
        return doc;
      }
      if h.globalRevit.Some? {
        var globalUiDoc := SafeGetAttr(h, h.globalRevit, "ActiveUIDocument");
        doc := SafeGetAttr(h, globalUiDoc, "Document");
        if doc.Some? {
          return doc;
        }
      }
      return None;
    }

    /** `doc`. */
    method Doc(h: Host) returns (v: Option<Handle>)
      requires Valid()
      modifies this
      ensures (v, State()) == DocStep(h, old(State()))
      ensures Valid()
    {
      if docSlot.None? {
        var doc := ResolveDocument(h);
        docSlot := Some(doc);
      }
      v := docSlot.value;
    }

    /** `_resolve_app`. */
    method ResolveApplication(h: Host) returns (v: Option<Handle>)
      requires Valid()
      modifies this
      ensures (v, State()) == ResolveApp(h, old(State()))
      ensures Valid()
    {
      var uiapp := UiApp(h);
      var app := SafeGetAttr(h, uiapp, "Application");
      if app.Some? {
        return app;
      }
      var doc := Doc(h);
      app := SafeGetAttr(h, doc, "Application");
      if app.Some? {
        return app;
      }
      if h.globalRevit.Some? {
        app := SafeGetAttr(h, h.globalRevit, "Application");
        if app.Some? {
          return app;
        }
      }
      return None;
    }

    /** `app`. */
    method App(h: Host) returns (v: Option<Handle>)
      requires Valid()
      modifies this
      ensures (v, State()) == AppStep(h, old(State()))
      ensures Valid()
    {
      if appSlot.None? {
        var app := ResolveApplication(h);
        appSlot := Some(app);
      }
      v := appSlot.value;
    }
  }

  /** The handle, or the error the accessor raises when there is none. */
  function Require(v: Option<Handle>, message: string): (r: Result<Handle>)
    ensures r.Success? <==> v.Some?
    ensures r.Success? ==> r.value == v.value
    ensures r.Failure? ==> r.error == message
  {
    if v.Some? then Success(v.value) else Failure(message)
  }

  const UIAPP_ERROR := "Unable to resolve Revit UIApplication."
  const APP_ERROR := "Unable to resolve Revit application object."
  const UIDOC_ERROR := "Unable to resolve active UIDocument."
  const DOC_ERROR := "Unable to resolve active Revit document."

  /** `refresh_revit_context`: clear the cache and hand the context back. */
  method RefreshRevitContext(ctx: Context) returns (r: Context)
    modifies ctx
    ensures r == ctx && ctx.State() == Unresolved && ctx.Valid()
  {
    ctx.Reset();
    r := ctx;
  }

  /** `get_uiapp`. */
  method GetUiApp(ctx: Context, h: Host) returns (r: Result<Handle>)
    requires ctx.Valid()
    modifies ctx
    ensures r == Require(UiAppStep(h, old(ctx.State())).0, UIAPP_ERROR)
    ensures ctx.State() == UiAppStep(h, old(ctx.State())).1 && ctx.Valid()
  {
    var v := ctx.UiApp(h);
    r := Require(v, UIAPP_ERROR);
  }

  /** `get_app`. */
  method GetApp(ctx: Context, h: Host) returns (r: Result<Handle>)
    requires ctx.Valid()
    modifies ctx
    ensures r == Require(AppStep(h, old(ctx.State())).0, APP_ERROR)
    ensures ctx.State() == AppStep(h, old(ctx.State())).1 && ctx.Valid()
  {
    var v := ctx.App(h);
    r := Require(v, APP_ERROR);
  }

  /** `get_uidoc`. */
  method GetUiDoc(ctx: Context, h: Host) returns (r: Result<Handle>)
    requires ctx.Valid()
    modifies ctx
    ensures r == Require(UiDocStep(h, old(ctx.State())).0, UIDOC_ERROR)
    ensures ctx.State() == UiDocStep(h, old(ctx.State())).1 && ctx.Valid()
  {
    var v := ctx.UiDoc(h);
    r := Require(v, UIDOC_ERROR);
  }

  /** `get_doc`. */
  method GetDoc(ctx: Context, h: Host) returns (r: Result<Handle>)
    requires ctx.Valid()
    modifies ctx
    ensures r == Require(DocStep(h, old(ctx.State())).0, DOC_ERROR)
    ensures ctx.State() == DocStep(h, old(ctx.State())).1 && ctx.Valid()
  {
    var v := ctx.Doc(h);
    r := Require(v, DOC_ERROR);
  }

  /**
   * On a freshly refreshed context, each accessor fails with its message exactly when no
   * source of the host yields the handle, and otherwise returns the first one that does.
   */
  lemma AccessorsAfterRefresh(h: Host)
    ensures Require(UiAppStep(h, Unresolved).0, UIAPP_ERROR) ==
      if FreshUiApp(h).Some? then Success(FreshUiApp(h).value) else Failure(UIAPP_ERROR)
    ensures Require(UiDocStep(h, Unresolved).0, UIDOC_ERROR) ==
      if FreshUiDoc(h).Some? then Success(FreshUiDoc(h).value) else Failure(UIDOC_ERROR)
    ensures Require(DocStep(h, Unresolved).0, DOC_ERROR) ==
      if FreshDoc(h).Some? then Success(FreshDoc(h).value) else Failure(DOC_ERROR)
    ensures Require(AppStep(h, Unresolved).0, APP_ERROR) ==
      if FreshApp(h).Some? then Success(FreshApp(h).value) else Failure(APP_ERROR)
  {
    UiAppStepSound(h, Unresolved);
    UiDocStepSound(h, Unresolved);
    DocStepSound(h, Unresolved);
    AppStepSound(h, Unresolved);
  }
}

/** Properties of the useStyleTag state machine: the guards and effects of
    each operation, the invariants every call keeps, and what a whole
    mount-calls-teardown session does to the head. */
module StyleTagProperties {
  import opened StyleTagSpec

  // ---------------------------------------------------------------- load

  /** `load` does nothing when already loaded, when an element is already
      owned, or when the document has no head. */
  lemma LoadNoOp(cfg: Config, s: State)
    requires WellFormed(s)
    requires s.loaded || s.owned.Some? || s.head.None?
    ensures LoadSpec(cfg, s) == s
  {
  }

  /** With no element of the configured id in the head, `load` appends exactly
      one new element carrying the id, the media and the buffered css, owns
      it and fires onLoad once. */
  lemma LoadCreates(cfg: Config, s: State)
    requires WellFormed(s) && !s.loaded && s.head.Some?
    requires Absent(s.head.value, cfg.id)
    ensures var r := LoadSpec(cfg, s);
      r.head == Some(s.head.value + [StyleRecord(cfg.id, MediaAttribute(cfg.media), s.css)]) &&
      r.owned == Some(|s.head.value|) && r.loaded &&
      r.css == s.css && r.loads == s.loads + 1 && r.unloads == s.unloads
  {
  }

  /** With an element of the configured id in the head, `load` adopts the
      first such element: nothing is appended, its id and media are kept, and
      only its text becomes the buffered css. */
  lemma LoadAdopts(cfg: Config, s: State, k: nat)
    requires WellFormed(s) && !s.loaded && s.head.Some?
    requires cfg.id != ""
    requires k < |s.head.value| && s.head.value[k].id == cfg.id
    requires forall j :: 0 <= j < k ==> s.head.value[j].id != cfg.id
    ensures var r := LoadSpec(cfg, s); var h := s.head.value;
      r.head == Some(h[k := StyleRecord(h[k].id, h[k].media, s.css)]) &&
      r.owned == Some(k) && r.loaded &&
      r.css == s.css && r.loads == s.loads + 1 && r.unloads == s.unloads
  {
    assert GetElementById(s.head.value, cfg.id) == k;
  }

  // -------------------------------------------------------------- unload

  /** `unload` of a loaded controller removes exactly the owned element,
      keeps every other element in order, releases ownership and fires
      onUnLoad once. */
  lemma UnloadRemovesOwned(s: State)
    requires WellFormed(s) && s.loaded
    ensures var r := UnloadSpec(s); var h, k := s.head.value, s.owned.value;
      r.head.Some? && |r.head.value| == |h| - 1 &&
      (forall j :: 0 <= j < k ==> r.head.value[j] == h[j]) &&
      (forall j :: k <= j < |h| - 1 ==> r.head.value[j] == h[j + 1]) &&
      !r.loaded && r.owned.None? &&
      r.css == s.css && r.loads == s.loads && r.unloads == s.unloads + 1
  {
  }

  /** `unload` does nothing when nothing is loaded, so teardown is safe. */
  lemma UnloadNoOp(s: State)
    requires WellFormed(s) && !s.loaded
    ensures UnloadSpec(s) == s
  {
  }

  /** A second `unload` changes nothing. */
  lemma UnloadIdempotent(s: State)
    requires WellFormed(s)
    ensures UnloadSpec(UnloadSpec(s)) == UnloadSpec(s)
  {
    UnloadNoOp(UnloadSpec(s));
  }

  // ----------------------------------------------------------- updateCss

  /** While loaded, `updateCss(v)` stores v and writes it into the owned
      element; no element is added, removed or otherwise changed. */
  lemma UpdateCssWhileLoaded(cfg: Config, s: State, v: string)
    requires Inv(cfg, s) && s.loaded
    ensures var r := UpdateCssSpec(s, v); var h, k := s.head.value, s.owned.value;
      r.css == v && r.loaded && r.owned == s.owned &&
      r.head == Some(h[k := h[k].(text := v)]) &&
      r.loads == s.loads && r.unloads == s.unloads
  {
    var h, k := s.head.value, s.owned.value;
    if v == s.css {
      assert h[k := h[k].(text := v)] == h;
    }
  }

  /** While not loaded, `updateCss(v)` only buffers v. */
  lemma UpdateCssWhileUnloaded(s: State, v: string)
    requires WellFormed(s) && !s.loaded
    ensures UpdateCssSpec(s, v) == s.(css := v)
  {
  }

  /** A buffered value is what the next successful `load` writes. */
  lemma UpdateThenLoad(cfg: Config, s: State, v: string)
    requires WellFormed(s) && !s.loaded && s.head.Some?
    ensures var r := LoadSpec(cfg, UpdateCssSpec(s, v));
      r.loaded && r.css == v && r.head.value[r.owned.value].text == v
  {
    UpdateCssWhileUnloaded(s, v);
  }

  // ---------------------------------------------------------- invariants

  /** Every call keeps the invariant: loaded exactly when an element is owned,
      that element is in the head, carries the configured id and shows the
      current css. */
  lemma StepKeepsInv(cfg: Config, s: State, c: Call)
    requires Inv(cfg, s)
    ensures Inv(cfg, Step(cfg, s, c))
  {
    match c
    case LoadCall =>
      if !s.loaded && s.head.Some? {
        var h := s.head.value;
        var k := GetElementById(h, cfg.id);
        if k == |h| {
          LoadCreates(cfg, s);
        } else {
          LoadAdopts(cfg, s, k);
        }
      }
    case UnloadCall =>
    case UpdateCssCall(v) =>
  }

  lemma {:induction false} RunKeepsInv(cfg: Config, s: State, calls: seq<Call>)
    requires Inv(cfg, s)
    ensures Inv(cfg, Run(cfg, s, calls))
    decreases |calls|
  {
    if calls != [] {
      StepKeepsInv(cfg, s, calls[0]);
      RunKeepsInv(cfg, Step(cfg, s, calls[0]), calls[1..]);
    }
  }

  /** With no head, no sequence of calls ever loads or fires onLoad. */
  lemma {:induction false} NoHeadNeverLoads(cfg: Config, s: State, calls: seq<Call>)
    requires WellFormed(s) && s.head.None?
    ensures var r := Run(cfg, s, calls);
      r.head.None? && !r.loaded && r.owned.None? && r.loads == s.loads && r.unloads == s.unloads
    decreases |calls|
  {
    if calls != [] {
      var s' := Step(cfg, s, calls[0]);
      assert s'.head.None? && s'.loads == s.loads && s'.unloads == s.unloads;
      NoHeadNeverLoads(cfg, s', calls[1..]);
    }
  }

  /** onLoad has fired once more than onUnLoad exactly while loaded. */
  ghost predicate Balanced(s: State) {
    s.loads == s.unloads + (if s.loaded then 1 else 0)
  }

  lemma {:induction false} RunKeepsBalanced(cfg: Config, s: State, calls: seq<Call>)
    requires WellFormed(s) && Balanced(s)
    ensures Balanced(Run(cfg, s, calls))
    decreases |calls|
  {
    if calls != [] {
      var s' := Step(cfg, s, calls[0]);
      assert Balanced(s');
      RunKeepsBalanced(cfg, s', calls[1..]);
    }
  }

  /** Over a whole session that deletes on unmount, every onLoad is matched by
      exactly one onUnLoad and nothing stays loaded. */
  lemma SessionCallbacksMatch(cfg: Config, css: string, head: Option<seq<StyleRecord>>, calls: seq<Call>)
    requires cfg.deleteStyleOnUnmount
    ensures var r := Session(cfg, css, head, calls);
      !r.loaded && r.loads == r.unloads
  {
    var m := MountSpec(cfg, Init(css, head));
    assert Balanced(m);
    RunKeepsBalanced(cfg, m, calls);
  }

  // ----------------------------------------------- the head after a session

  /** The head as the controller found it (`h0`), plus the controller's own
      element at the end while loaded. */
  ghost predicate Pristine(cfg: Config, h0: seq<StyleRecord>, s: State) {
    Inv(cfg, s) &&
    if s.loaded then
      s.owned == Some(|h0|) &&
      s.head == Some(h0 + [StyleRecord(cfg.id, MediaAttribute(cfg.media), s.css)])
    else
      s.head == Some(h0)
  }

  lemma StepKeepsPristine(cfg: Config, h0: seq<StyleRecord>, s: State, c: Call)
    requires Absent(h0, cfg.id)
    requires Pristine(cfg, h0, s)
    ensures Pristine(cfg, h0, Step(cfg, s, c))
  {
    StepKeepsInv(cfg, s, c);
    var rec := StyleRecord(cfg.id, MediaAttribute(cfg.media), s.css);
    match c
    case LoadCall =>
      if !s.loaded {
        LoadCreates(cfg, s);
      }
    case UnloadCall =>
      if s.loaded {
        assert (h0 + [rec])[..|h0|] + (h0 + [rec])[|h0| + 1..] == h0;
      }
    case UpdateCssCall(v) =>
      if s.loaded && v != s.css {
        assert (h0 + [rec])[|h0| := rec.(text := v)] == h0 + [rec.(text := v)];
      }
  }

  lemma {:induction false} RunKeepsPristine(cfg: Config, h0: seq<StyleRecord>, s: State, calls: seq<Call>)
    requires Absent(h0, cfg.id)
    requires Pristine(cfg, h0, s)
    ensures Pristine(cfg, h0, Run(cfg, s, calls))
    decreases |calls|
  {
    if calls != [] {
      StepKeepsPristine(cfg, h0, s, calls[0]);
      RunKeepsPristine(cfg, h0, Step(cfg, s, calls[0]), calls[1..]);
    }
  }

  /** When the head holds no element with the configured id, a session that
      deletes on unmount leaves the head exactly as it found it, whatever
      calls are made in between. */
  lemma SessionRestoresHead(cfg: Config, css: string, h0: seq<StyleRecord>, calls: seq<Call>)
    requires cfg.deleteStyleOnUnmount
    requires Absent(h0, cfg.id)
    ensures Session(cfg, css, Some(h0), calls).head == Some(h0)
  {
    var m := MountSpec(cfg, Init(css, Some(h0)));
    if cfg.immediate && !cfg.manual {
      LoadCreates(cfg, Init(css, Some(h0)));
    }
    assert Pristine(cfg, h0, m);
    RunKeepsPristine(cfg, h0, m, calls);
    StepKeepsPristine(cfg, h0, Run(cfg, m, calls), UnloadCall);
  }

  /** The shared-id case: when the head already holds an element with the
      configured id, `load` adopts it and `unload` then removes it, although
      this controller never created it. */
  lemma AdoptedElementRemoved(cfg: Config, css: string, h0: seq<StyleRecord>, k: nat)
    requires cfg.id != ""
    requires k < |h0| && h0[k].id == cfg.id
    requires forall j :: 0 <= j < k ==> h0[j].id != cfg.id
    ensures var r := UnloadSpec(LoadSpec(cfg, Init(css, Some(h0))));
      r.head == Some(h0[..k] + h0[k + 1..]) && !r.loaded
  {
    var s := Init(css, Some(h0));
    LoadAdopts(cfg, s, k);
    var h1 := h0[k := StyleRecord(h0[k].id, h0[k].media, css)];
    assert h1[..k] + h1[k + 1..] == h0[..k] + h0[k + 1..];
  }

  // ----------------------------------------------------------- lifecycle

  /** With `manual`, mounting attaches nothing and leaves the controller
      unloaded; an explicit `load` is then what attaches the element. */
  lemma ManualMountAttachesNothing(cfg: Config, css: string, head: Option<seq<StyleRecord>>)
    requires cfg.manual
    ensures MountSpec(cfg, Init(css, head)) == Init(css, head)
  {
  }

  /** With the default options, mounting into an empty head attaches one
      element showing the css; `updateCss` rewrites that element and
      `unload` empties the head again. */
  lemma DefaultLifecycle(token: string, red: string, blue: string)
    ensures var cfg := Resolve(Options(None, None, None, None, None), token);
      var m := MountSpec(cfg, Init(red, Some([])));
      var u := UpdateCssSpec(m, blue);
      var e := UnloadSpec(u);
      m.loaded && m.head == Some([StyleRecord(GeneratedIdPrefix + token, "", red)]) &&
      u.loaded && u.head == Some([StyleRecord(GeneratedIdPrefix + token, "", blue)]) &&
      !e.loaded && e.head == Some([]) && e.loads == 1 && e.unloads == 1
  {
    var cfg := Resolve(Options(None, None, None, None, None), token);
    var rec := StyleRecord(GeneratedIdPrefix + token, "", red);
    LoadCreates(cfg, Init(red, Some([])));
    var m := MountSpec(cfg, Init(red, Some([])));
    assert [] + [rec] == [rec];
    UpdateCssWhileLoaded(cfg, m, blue);
    assert [rec][0 := rec.(text := blue)] == [rec.(text := blue)];
  }

  /** A supplied id is the one the handle reports and the one the element
      created on mount carries. */
  lemma CustomIdUsed(id: string, token: string, css: string, h0: seq<StyleRecord>)
    requires Absent(h0, id)
    ensures var cfg := Resolve(Options(Some(id), None, None, None, None), token);
      var m := MountSpec(cfg, Init(css, Some(h0)));
      cfg.id == id && m.loaded && m.head.value[m.owned.value].id == id
  {
    var cfg := Resolve(Options(Some(id), None, None, None, None), token);
    LoadCreates(cfg, Init(css, Some(h0)));
  }
}

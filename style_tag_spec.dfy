/** Value-level specification of the useStyleTag controller: the head of the
    document as a sequence of style records, the controller's fields as a
    record, and each operation as a function from the old state to the new. */
module StyleTagSpec {

  datatype Option<T> = None | Some(value: T)

  /** The options a caller passes; None is an option left undefined. */
  datatype Options = Options(
    id: Option<string>,
    media: Option<string>,
    immediate: Option<bool>,
    manual: Option<bool>,
    deleteStyleOnUnmount: Option<bool>)

  /** The options once their defaults are filled in. */
  datatype Config = Config(
    id: string,
    media: Option<string>,
    immediate: bool,
    manual: bool,
    deleteStyleOnUnmount: bool)

  /** Prefix of the id generated when the caller gives none. */
  const GeneratedIdPrefix: string := "head-style-id-"

  /** Fills in the defaults. `token` stands for the random base-36 suffix of
      a generated id. */
  function Resolve(opts: Options, token: string): (c: Config)
    ensures opts.id.Some? ==> c.id == opts.id.value
    ensures opts.id.None? ==> c.id == GeneratedIdPrefix + token
    ensures c.media == opts.media
    ensures c.immediate <==> opts.immediate != Some(false)
    ensures c.manual <==> opts.manual == Some(true)
    ensures c.deleteStyleOnUnmount <==> opts.deleteStyleOnUnmount != Some(false)
  {
    Config(
      match opts.id case Some(i) => i case None => GeneratedIdPrefix + token,
      opts.media,
      match opts.immediate case Some(b) => b case None => true,
      match opts.manual case Some(b) => b case None => false,
      match opts.deleteStyleOnUnmount case Some(b) => b case None => true)
  }

  /** What a style element in the head looks like: its id, media and text. */
  datatype StyleRecord = StyleRecord(id: string, media: string, text: string)

  /** The media attribute of a newly created element: the option's value when
      it is truthy, otherwise the element's empty default. */
  function MediaAttribute(media: Option<string>): (m: string)
    ensures media.Some? && media.value != "" ==> m == media.value
    ensures m == "" <==> media.None? || media.value == ""
  {
    if media.Some? && media.value != "" then media.value else ""
  }

  /** The first position of `x` in `s`, or |s| when `x` does not occur. */
  function FirstIndex<T(==)>(s: seq<T>, x: T): (k: nat)
    ensures k <= |s|
    ensures k < |s| ==> s[k] == x
    ensures forall j :: 0 <= j < k ==> s[j] != x
  {
    if s == [] then 0
    else if s[0] == x then 0
    else 1 + FirstIndex(s[1..], x)
  }

  lemma FirstIndexOfDistinct<T>(s: seq<T>, k: nat)
    requires k < |s|
    requires forall i, j :: 0 <= i < j < |s| ==> s[i] != s[j]
    ensures FirstIndex(s, s[k]) == k
  {
  }

  function Ids(h: seq<StyleRecord>): (ids: seq<string>)
    ensures |ids| == |h|
    ensures forall i :: 0 <= i < |h| ==> ids[i] == h[i].id
  {
    seq(|h|, i requires 0 <= i < |h| => h[i].id)
  }

  /** getElementById finds nothing: the empty id matches no element, and a
      non-empty one is carried by no element of the head. */
  predicate Absent(h: seq<StyleRecord>, id: string) {
    id == "" || id !in Ids(h)
  }

  /** Lookup by id in the head: the position of the first element carrying
      a non-empty `id`, or |h| when there is none. */
  function GetElementById(h: seq<StyleRecord>, id: string): (k: nat)
    ensures k <= |h|
    ensures k < |h| ==> id != "" && h[k].id == id
    ensures id != "" ==> forall j :: 0 <= j < k ==> h[j].id != id
    ensures k == |h| <==> Absent(h, id)
  {
    if id == "" then |h| else FirstIndex(Ids(h), id)
  }

  /** The controller together with the head it writes to. `head` is None when
      the document has no head; `owned` is the position of the owned element
      in the head; `loads` and `unloads` count the calls of onLoad and
      onUnLoad. */
  datatype State = State(
    head: Option<seq<StyleRecord>>,
    owned: Option<nat>,
    loaded: bool,
    css: string,
    loads: nat,
    unloads: nat)

  /** The state right after the hook is first called with `css`. */
  function Init(css: string, head: Option<seq<StyleRecord>>): (s: State)
    ensures !s.loaded && s.owned.None? && s.css == css && s.head == head
    ensures s.loads == 0 && s.unloads == 0
  {
    State(head, None, false, css, 0, 0)
  }

  /** Loaded exactly when an element is owned, the owned element is in the
      head, and nothing is loaded without a head. */
  ghost predicate WellFormed(s: State) {
    (s.loaded <==> s.owned.Some?) &&
    (s.head.None? ==> !s.loaded) &&
    (s.owned.Some? ==> s.head.Some? && s.owned.value < |s.head.value|)
  }

  /** WellFormed, and the owned element carries the configured id and shows
      the current css. */
  ghost predicate Inv(cfg: Config, s: State) {
    WellFormed(s) &&
    (s.owned.Some? ==>
      s.head.value[s.owned.value].id == cfg.id &&
      s.head.value[s.owned.value].text == s.css)
  }

  /** `load`: acts only when not loaded, nothing is owned and there is a head.
      It adopts the element with the configured id when the head has one, and
      otherwise creates one, gives it the id and the media, and appends it. */
  function LoadSpec(cfg: Config, s: State): (r: State)
    requires WellFormed(s)
    ensures WellFormed(r)
  {
    if !s.loaded && s.owned.None? && s.head.Some? then
      var h := s.head.value;
      var k := GetElementById(h, cfg.id);
      var h' := if k < |h| then h[k := h[k].(text := s.css)]
                else h + [StyleRecord(cfg.id, MediaAttribute(cfg.media), s.css)];
      s.(head := Some(h'), owned := Some(k), loaded := true, loads := s.loads + 1)
    else
      s
  }

  /** `unload`: acts when loaded or owning an element; removes the owned
      element from the head and releases it. */
  function UnloadSpec(s: State): (r: State)
    requires WellFormed(s)
    ensures WellFormed(r)
  {
    if s.loaded || s.owned.Some? then
      var h, k := s.head.value, s.owned.value;
      s.(head := Some(h[..k] + h[k + 1..]), owned := None, loaded := false,
         unloads := s.unloads + 1)
    else
      s
  }

  /** `updateCss`: stores the value; when it differs from the stored one and
      the controller is loaded, writes it into the owned element. */
  function UpdateCssSpec(s: State, v: string): (r: State)
    requires WellFormed(s)
    ensures WellFormed(r)
  {
    if v == s.css then s
    else if s.loaded && s.owned.Some? then
      var h, k := s.head.value, s.owned.value;
      s.(css := v, head := Some(h[k := h[k].(text := v)]))
    else
      s.(css := v)
  }

  /** The mount effect: loads when immediate and not manual. */
  function MountSpec(cfg: Config, s: State): (r: State)
    requires WellFormed(s)
    ensures WellFormed(r)
  {
    if cfg.immediate && !cfg.manual then LoadSpec(cfg, s) else s
  }

  /** The teardown of the mount effect: unloads when deleteStyleOnUnmount. */
  function TeardownSpec(cfg: Config, s: State): (r: State)
    requires WellFormed(s)
    ensures WellFormed(r)
  {
    if cfg.deleteStyleOnUnmount then UnloadSpec(s) else s
  }

  /** A public call made on the handle the hook returns. */
  datatype Call = LoadCall | UnloadCall | UpdateCssCall(value: string)

  function Step(cfg: Config, s: State, c: Call): (r: State)
    requires WellFormed(s)
    ensures WellFormed(r)
  {
    match c
    case LoadCall => LoadSpec(cfg, s)
    case UnloadCall => UnloadSpec(s)
    case UpdateCssCall(v) => UpdateCssSpec(s, v)
  }

  /** The calls made one after the other, each complete before the next. */
  function Run(cfg: Config, s: State, calls: seq<Call>): (r: State)
    requires WellFormed(s)
    ensures WellFormed(r)
    decreases |calls|
  {
    if calls == [] then s else Run(cfg, Step(cfg, s, calls[0]), calls[1..])
  }

  /** A whole life of the hook: mount, the calls, then teardown. */
  function Session(cfg: Config, css: string, head: Option<seq<StyleRecord>>, calls: seq<Call>): (r: State)
    ensures WellFormed(r)
  {
    TeardownSpec(cfg, Run(cfg, MountSpec(cfg, Init(css, head)), calls))
  }
}

/** The useStyleTag hook as objects that change in place: a document head
    whose child list the hook appends to and removes from, and a controller
    whose fields hold the owned element, the loaded flag and the buffered
    css. Each controller method is proved against the matching function of
    StyleTagSpec through Abs(). */
module StyleTag {
  import opened StyleTagSpec

  /** How a call that may reach removeChild ends: it completes, or removeChild
      throws a NotFoundError because the element is not a child of the head. */
  datatype Outcome = Completed | NotFoundError

  /** A style element: `node` is its identity as a DOM node, so that two
      controllers holding the same node hold the same element. */
  datatype StyleNode = StyleNode(node: nat, id: string, media: string, textContent: string)

  function Records(c: seq<StyleNode>): (r: seq<StyleRecord>)
    ensures |r| == |c|
    ensures forall i :: 0 <= i < |c| ==> r[i] == StyleRecord(c[i].id, c[i].media, c[i].textContent)
  {
    seq(|c|, i requires 0 <= i < |c| => StyleRecord(c[i].id, c[i].media, c[i].textContent))
  }

  function Nodes(c: seq<StyleNode>): (r: seq<nat>)
    ensures |r| == |c|
    ensures forall i :: 0 <= i < |c| ==> r[i] == c[i].node
  {
    seq(|c|, i requires 0 <= i < |c| => c[i].node)
  }

  /** A document's head, together with the document's supply of new nodes. */
  class Head {
    var children: seq<StyleNode>
    /** The identity of the next element createElement hands out. */
    var nextNode: nat

    /** A node is a child at most once, and every child was handed out. */
    ghost predicate Valid()
      reads this
    {
      (forall i, j :: 0 <= i < j < |children| ==> children[i].node != children[j].node) &&
      (forall i :: 0 <= i < |children| ==> children[i].node < nextNode)
    }

    /** A head already holding elements that look like `records`. */
    constructor (records: seq<StyleRecord>)
      ensures Valid() && Records(children) == records
    {
      children := seq(|records|, i requires 0 <= i < |records| =>
        StyleNode(i, records[i].id, records[i].media, records[i].text));
      nextNode := |records|;
    }

    /** createElement('style'): a new element, in no head, every field empty. */
    method CreateElement() returns (e: StyleNode)
      requires Valid()
      modifies this`nextNode
      ensures Valid()
      ensures e.node !in Nodes(children) && e.node == old(nextNode) && nextNode == old(nextNode) + 1
      ensures e.id == "" && e.media == "" && e.textContent == ""
    {
      e := StyleNode(nextNode, "", "", "");
      nextNode := nextNode + 1;
    }

    /** appendChild for an element in no head. */
    method AppendChild(e: StyleNode)
      requires Valid() && e.node !in Nodes(children) && e.node < nextNode
      modifies this`children
      ensures Valid() && children == old(children) + [e]
    {
      children := children + [e];
    }

    /** removeChild: removes the child with identity `node`, or throws a
        NotFoundError when there is none. */
    method RemoveChild(node: nat) returns (r: Outcome)
      requires Valid()
      modifies this`children
      ensures Valid()
      ensures r == Completed <==> node in Nodes(old(children))
      ensures r == Completed ==>
        var k := FirstIndex(Nodes(old(children)), node);
        children == old(children[..k] + children[k + 1..])
      ensures r == NotFoundError ==> children == old(children)
    {
      var k := FirstIndex(Nodes(children), node);
      if k == |children| {
        r := NotFoundError;
      } else {
        children := children[..k] + children[k + 1..];
        r := Completed;
      }
    }

    /** The element `load` writes into: the first child carrying `id` when
        getElementById finds one (a child of the head is connected, so it is
        kept as it is), otherwise a new element given the id and,
        when `media` is truthy, the media, and appended. `k` is its position. */
    method ElementForId(id: string, media: Option<string>) returns (e: StyleNode, k: nat)
      requires Valid()
      modifies this
      ensures Valid()
      ensures old(nextNode) <= nextNode
      ensures k == GetElementById(Records(old(children)), id)
      ensures k < |old(children)| ==> children == old(children) && e == children[k]
      ensures k == |old(children)| ==>
        children == old(children) + [e] && e.node !in Nodes(old(children)) &&
        e.id == id && e.media == MediaAttribute(media) && e.textContent == "" && old(nextNode) <= e.node
    {
      k := GetElementById(Records(children), id);
      if k < |children| {
        e := children[k];
      } else {
        e := CreateElement();
        e := e.(id := id);
        if media.Some? && media.value != "" {
          e := e.(media := media.value);
        }
        AppendChild(e);
      }
    }

    /** Sets the textContent of the element with identity `node`. The text of
        an element that is in no head is not kept. */
    method SetTextContent(node: nat, text: string)
      requires Valid()
      modifies this`children
      ensures Valid()
      ensures node in Nodes(old(children)) ==>
        var k := FirstIndex(Nodes(old(children)), node);
        children == old(children[k := children[k].(textContent := text)])
      ensures node !in Nodes(old(children)) ==> children == old(children)
      ensures Nodes(children) == Nodes(old(children))
    {
      var k := FirstIndex(Nodes(children), node);
      if k < |children| {
        children := children[k := children[k].(textContent := text)];
      }
    }

    /** What `load` does to the head: the element found by id, or a new one
        configured and appended, gets the buffered css of `s` as its text.
        The head becomes the one `LoadSpec` prescribes, `k` is the owned
        position and `e` the owned element. */
    method WriteStyle(ghost cfg: Config, ghost s: State, css: string, id: string, media: Option<string>)
      returns (e: StyleNode, ghost k: nat)
      requires Valid() && WellFormed(s) && !s.loaded && s.head == Some(Records(children))
      requires css == s.css && id == cfg.id && media == cfg.media
      modifies this
      ensures Valid() && old(nextNode) <= nextNode
      ensures k < |children| && FirstIndex(Nodes(children), e.node) == k
      ensures LoadSpec(cfg, s) == s.(head := Some(Records(children)), owned := Some(k), loaded := true, loads := s.loads + 1)
      ensures e.node in Nodes(old(children)) || old(nextNode) <= e.node
      ensures |old(children)| <= |children| &&
        forall i :: 0 <= i < |old(children)| ==> children[i].node == old(children[i].node)
    {
      ghost var c0 := children;
      e, k := ElementForId(id, media);
      ghost var c := children;
      LoadedHead(cfg, s, c0, c, k);
      NodePosition(c, k);
      SetTextContent(e.node, css);
      forall i | 0 <= i < |c0| ensures children[i].node == c0[i].node {
        assert c[i] == c0[i];
      }
    }
  }

  /** In a head whose nodes are distinct, the position of a node's identity
      is the position of the node. */
  lemma NodePosition(c: seq<StyleNode>, k: nat)
    requires k < |c|
    requires forall i, j :: 0 <= i < j < |c| ==> c[i].node != c[j].node
    ensures FirstIndex(Nodes(c), c[k].node) == k
  {
    FirstIndexOfDistinct(Nodes(c), k);
  }

  /** Setting the text of the k-th child changes only the k-th record. */
  lemma RecordsWithText(c: seq<StyleNode>, k: nat, text: string)
    requires k < |c|
    ensures Records(c[k := c[k].(textContent := text)]) == Records(c)[k := Records(c)[k].(text := text)]
  {
  }

  /** What `load` does to a head whose children were `c0`: `c` is the child
      list once the element to own is in it at position k (the element found
      by id, or a new one appended), and the text of that element is then
      set to the buffered css. */
  lemma LoadedHead(cfg: Config, s: State, c0: seq<StyleNode>, c: seq<StyleNode>, k: nat)
    requires WellFormed(s) && !s.loaded && s.head == Some(Records(c0))
    requires forall i, j :: 0 <= i < j < |c| ==> c[i].node != c[j].node
    requires k == GetElementById(Records(c0), cfg.id)
    requires k < |c0| ==> c == c0
    requires k == |c0| ==>
      |c| == |c0| + 1 && c[..|c0|] == c0 && c[k].id == cfg.id && c[k].media == MediaAttribute(cfg.media)
    ensures k < |c|
    ensures var c' := c[k := c[k].(textContent := s.css)];
      FirstIndex(Nodes(c'), c[k].node) == k &&
      LoadSpec(cfg, s) == s.(head := Some(Records(c')), owned := Some(k), loaded := true, loads := s.loads + 1)
  {
    var c' := c[k := c[k].(textContent := s.css)];
    RecordsWithText(c, k, s.css);
    NodePosition(c', k);
    if k == |c0| {
      var rec := StyleRecord(cfg.id, MediaAttribute(cfg.media), s.css);
      assert Records(c') == Records(c0) + [rec] by {
        forall i | 0 <= i < |c0| ensures Records(c')[i] == Records(c0)[i] {
          assert c'[i] == c[i] == c0[i];
        }
      }
    }
  }

  class Controller {
    /** The options with their defaults filled in, fixed for the controller's life. */
    const config: Config
    /** The options and the random id suffix the controller was created with. */
    ghost const options: Options
    ghost const token: string
    /** `document.head`; null when there is no document or it has no head. */
    const head: Head?
    /** The identity of the owned element, if any. */
    var styleRef: Option<nat>
    var isLoaded: bool
    var changableCss: string
    /** How often onLoad and onUnLoad have been called. */
    var loadCount: nat
    var unloadCount: nat

    ghost predicate Valid()
      reads this, head
    {
      config == Resolve(options, token) &&
      (isLoaded <==> styleRef.Some?) &&
      (head == null ==> !isLoaded) &&
      (styleRef.Some? ==> head != null && styleRef.value < head.nextNode) &&
      (head != null ==> head.Valid())
    }

    /** The owned element, if any, is still a child of the head. Only another
        party writing to the same head (a second controller given the same
        id) can break this. */
    ghost predicate Attached()
      reads this, head
    {
      styleRef.Some? ==> head != null && styleRef.value in Nodes(head.children)
    }

    /** The controller and its head as a StyleTagSpec state. */
    ghost function Abs(): (s: State)
      reads this, head
      requires Valid() && Attached()
      ensures WellFormed(s)
    {
      State(
        if head == null then None else Some(Records(head.children)),
        if styleRef.None? then None else Some(FirstIndex(Nodes(head.children), styleRef.value)),
        isLoaded, changableCss, loadCount, unloadCount)
    }

    /** The hook's first call: the options are resolved (`token` stands for
        the random id suffix), nothing is owned and nothing is loaded. */
    constructor (css: string, options: Options, token: string, head: Head?)
      requires head != null ==> head.Valid()
      ensures this.options == options && this.token == token && this.head == head
      ensures Valid() && Attached()
      ensures Abs() == Init(css, if head == null then None else Some(Records(head.children)))
    {
      config := Resolve(options, token);
      this.options, this.token := options, token;
      this.head := head;
      styleRef := None;
      isLoaded := false;
      changableCss := css;
      loadCount, unloadCount := 0, 0;
    }

    /** The id the hook returns: the id option when given, otherwise the
        prefix followed by the random suffix drawn for this controller. */
    function Id(): (id: string)
      reads this, head
      requires Valid()
      ensures options.id.Some? ==> id == options.id.value
      ensures options.id.None? ==> id == GeneratedIdPrefix + token
    {
      config.id
    }

    method Load()
      requires Valid()
      modifies this, head
      ensures Valid()
      ensures head != null ==> old(head.nextNode) <= head.nextNode
      ensures old(Attached()) ==> Attached() && Abs() == LoadSpec(config, old(Abs()))
      ensures styleRef.Some? && styleRef != old(styleRef) ==>
        styleRef.value in Nodes(old(head.children)) || old(head.nextNode) <= styleRef.value
      ensures !old(Attached()) ==> unchanged(this) && unchanged(head)
      ensures head != null ==>
        |old(head.children)| <= |head.children| &&
        forall i :: 0 <= i < |old(head.children)| ==> head.children[i].node == old(head.children[i].node)
    {
      if !isLoaded && styleRef.None? && head != null {
        ghost var s0 := Abs();
        var styleElement, k := head.WriteStyle(config, s0, changableCss, config.id, config.media);
        styleRef := Some(styleElement.node);
        loadCount := loadCount + 1;
        isLoaded := true;
      }
    }

    method Unload() returns (r: Outcome)
      requires Valid()
      modifies this, head
      ensures Valid()
      ensures head != null ==> old(head.nextNode) <= head.nextNode
      ensures old(Attached()) ==> r == Completed && Attached() && Abs() == UnloadSpec(old(Abs()))
      ensures !old(Attached()) ==> r == NotFoundError && unchanged(this) && unchanged(head)
      ensures old(Attached()) && old(isLoaded) ==>
        var k := old(Abs()).owned.value;
        head.children == old(head.children)[..k] + old(head.children)[k + 1..]
      ensures !old(isLoaded) ==> r == Completed && unchanged(this) && (head != null ==> unchanged(head))
    {
      r := Completed;
      if isLoaded || styleRef.Some? {
        ghost var s0 := if Attached() then Abs() else Init("", None);
        r := head.RemoveChild(styleRef.value);
        if r == NotFoundError {
          return;
        }
        styleRef := None;
        unloadCount := unloadCount + 1;
        isLoaded := false;
        assert Records(head.children) == UnloadSpec(s0).head.value;
      }
    }

    method UpdateCss(v: string)
      requires Valid()
      modifies this, head
      ensures Valid()
      ensures head != null ==> old(head.nextNode) <= head.nextNode
      ensures old(Attached()) ==> Attached() && Abs() == UpdateCssSpec(old(Abs()), v)
      ensures !old(Attached()) ==>
        !Attached() && changableCss == v && styleRef == old(styleRef) && isLoaded == old(isLoaded) &&
        loadCount == old(loadCount) && unloadCount == old(unloadCount) && unchanged(head)
      ensures styleRef == old(styleRef)
      ensures head != null ==> Nodes(head.children) == Nodes(old(head.children))
    {
      if v != changableCss {
        ghost var attached := Attached();
        ghost var s0 := if attached then Abs() else Init("", None);
        changableCss := v;
        if isLoaded && styleRef.Some? {
          head.SetTextContent(styleRef.value, v);
          if attached {
            var k := s0.owned.value;
            NodePosition(old(head.children), k);
            assert head.children == old(head.children)[k := old(head.children)[k].(textContent := v)];
            NodePosition(head.children, k);
            assert Records(head.children) == UpdateCssSpec(s0, v).head.value;
          }
        }
      }
    }

    /** The mount effect. */
    method Mount()
      requires Valid()
      modifies this, head
      ensures Valid()
      ensures head != null ==> old(head.nextNode) <= head.nextNode
      ensures old(Attached()) ==> Attached() && Abs() == MountSpec(config, old(Abs()))
      ensures styleRef.Some? && styleRef != old(styleRef) ==>
        styleRef.value in Nodes(old(head.children)) || old(head.nextNode) <= styleRef.value
      ensures !old(Attached()) ==> unchanged(this) && unchanged(head)
      ensures head != null ==>
        |old(head.children)| <= |head.children| &&
        forall i :: 0 <= i < |old(head.children)| ==> head.children[i].node == old(head.children[i].node)
    {
      if config.immediate && !config.manual {
        Load();
      }
    }

    /** The teardown of the mount effect. */
    method Teardown() returns (r: Outcome)
      requires Valid()
      modifies this, head
      ensures Valid()
      ensures head != null ==> old(head.nextNode) <= head.nextNode
      ensures old(Attached()) ==> r == Completed && Attached() && Abs() == TeardownSpec(config, old(Abs()))
      ensures !old(Attached()) ==> unchanged(this) && unchanged(head)
      ensures !old(Attached()) ==> (r == NotFoundError <==> config.deleteStyleOnUnmount)
      ensures !config.deleteStyleOnUnmount || !old(isLoaded) ==>
        r == Completed && unchanged(this) && (head != null ==> unchanged(head))
      ensures config.deleteStyleOnUnmount && old(Attached()) && old(isLoaded) ==>
        var k := old(Abs()).owned.value;
        head.children == old(head.children)[..k] + old(head.children)[k + 1..]
    {
      r := Completed;
      if config.deleteStyleOnUnmount {
        r := Unload();
      }
    }
  }
}

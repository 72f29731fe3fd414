/** Uses of the controller as a component would make them, each ending in
    what the hook promises for that use. */
module StyleTagScenarios {
  import opened StyleTagSpec
  import opened StyleTag
  import StyleTagProperties

  const Red: string := ".test { color: red; }"
  const Blue: string := ".test { color: blue; }"

  /** Default options: mounting attaches one element showing the css,
      updateCss rewrites that element, unload empties the head again. */
  method MountUpdateUnload(token: string)
    returns (mounted: seq<StyleRecord>, updated: seq<StyleRecord>, unloaded: seq<StyleRecord>, loaded: bool)
    ensures mounted == [StyleRecord(GeneratedIdPrefix + token, "", Red)]
    ensures updated == [StyleRecord(GeneratedIdPrefix + token, "", Blue)]
    ensures unloaded == [] && !loaded
  {
    var head := new Head([]);
    var c := new Controller(Red, Options(None, None, None, None, None), token, head);
    StyleTagProperties.DefaultLifecycle(token, Red, Blue);
    c.Mount();
    mounted := Records(head.children);
    c.UpdateCss(Blue);
    updated := Records(head.children);
    var r := c.Unload();
    unloaded := Records(head.children);
    loaded := c.isLoaded;
  }

  /** With `manual`, mounting attaches nothing; an explicit load does. */
  method ManualThenLoad(token: string)
    returns (beforeLoad: seq<StyleRecord>, loadedBefore: bool, afterLoad: seq<StyleRecord>, loadedAfter: bool)
    ensures beforeLoad == [] && !loadedBefore
    ensures afterLoad == [StyleRecord(GeneratedIdPrefix + token, "", Red)] && loadedAfter
  {
    var head := new Head([]);
    var c := new Controller(Red, Options(None, None, None, Some(true), None), token, head);
    c.Mount();
    beforeLoad, loadedBefore := Records(head.children), c.isLoaded;
    StyleTagProperties.LoadCreates(c.config, c.Abs());
    c.Load();
    afterLoad, loadedAfter := Records(head.children), c.isLoaded;
  }

  /** A supplied id is the returned id and the created element's id. */
  method CustomId(id: string) returns (returned: string, elementIds: seq<string>)
    ensures returned == id && elementIds == [id]
  {
    var head := new Head([]);
    var c := new Controller(Red, Options(Some(id), None, None, None, None), "", head);
    StyleTagProperties.LoadCreates(c.config, c.Abs());
    c.Mount();
    returned := c.Id();
    elementIds := Ids(Records(head.children));
  }

  /** onLoad fires once on mount and onUnLoad not at all; an unload then
      fires onUnLoad once, and a second unload fires nothing. */
  method CallbackCounts(token: string)
    returns (loadsAfterMount: nat, unloadsAfterMount: nat, unloadsAfterUnload: nat, unloadsAfterSecond: nat)
    ensures loadsAfterMount == 1 && unloadsAfterMount == 0
    ensures unloadsAfterUnload == 1 && unloadsAfterSecond == 1
  {
    var head := new Head([]);
    var c := new Controller(Red, Options(None, None, None, None, None), token, head);
    c.Mount();
    loadsAfterMount, unloadsAfterMount := c.loadCount, c.unloadCount;
    var r := c.Unload();
    unloadsAfterUnload := c.unloadCount;
    r := c.Unload();
    unloadsAfterSecond := c.unloadCount;
  }

  /** Without a head, mounting and loading do nothing and raise nothing. */
  method NoHead(token: string) returns (loadedAfterMount: bool, loadedAfterLoad: bool, loads: nat)
    ensures !loadedAfterMount && !loadedAfterLoad && loads == 0
  {
    var c := new Controller(Red, Options(None, None, None, None, None), token, null);
    c.Mount();
    loadedAfterMount := c.isLoaded;
    c.Load();
    loadedAfterLoad, loads := c.isLoaded, c.loadCount;
  }

  /** Two controllers given the same non-empty id, mounted one after the
      other on one empty head: the second adopts the element the first
      created and overwrites its text. */
  method MountTwoWithSharedId(id: string) returns (head: Head, first: Controller, second: Controller)
    requires id != ""
    ensures fresh(head) && first != second && first.head == head && second.head == head
    ensures first.Valid() && first.isLoaded && second.Valid() && second.isLoaded
    ensures second.config.deleteStyleOnUnmount && second.changableCss == Blue
    ensures Records(head.children) == [StyleRecord(id, "", Blue)]
    ensures second.config.id == id && second.config.media.None?
    ensures Nodes(head.children) == [first.styleRef.value] && second.styleRef == first.styleRef
  {
    head := new Head([]);
    first := new Controller(Red, Options(Some(id), None, None, None, None), "", head);
    StyleTagProperties.LoadCreates(first.config, first.Abs());
    first.Mount();
    second := new Controller(Blue, Options(Some(id), None, None, None, None), "", head);
    StyleTagProperties.LoadAdopts(second.config, second.Abs(), 0);
    second.Mount();
  }

  /** The shared element: unloading the second controller removes it, and
      unloading the first then throws a NotFoundError from removeChild. */
  method SharedId(id: string)
    returns (afterBoth: seq<StyleRecord>, secondUnload: Outcome, afterSecond: seq<StyleRecord>, firstUnload: Outcome)
    requires id != ""
    ensures afterBoth == [StyleRecord(id, "", Blue)]
    ensures secondUnload == Completed && afterSecond == []
    ensures firstUnload == NotFoundError
  {
    var head, first, second := MountTwoWithSharedId(id);
    afterBoth := Records(head.children);
    secondUnload := second.Unload();
    afterSecond := Records(head.children);
    firstUnload := first.Unload();
  }

  /** Two controllers given the empty id, mounted one after the other on one
      empty head: getElementById("") finds nothing, so each creates and
      appends its own element. */
  method MountTwoWithEmptyId() returns (head: Head, first: Controller, second: Controller)
    ensures fresh(head) && first != second && first.head == head && second.head == head
    ensures first.Valid() && first.isLoaded && second.Valid() && second.isLoaded
    ensures second.config.deleteStyleOnUnmount && second.changableCss == Blue
    ensures Records(head.children) == [StyleRecord("", "", Red), StyleRecord("", "", Blue)]
    ensures Nodes(head.children) == [first.styleRef.value, second.styleRef.value]
  {
    head := new Head([]);
    first := new Controller(Red, Options(Some(""), None, None, None, None), "", head);
    StyleTagProperties.LoadCreates(first.config, first.Abs());
    first.Mount();
    ghost var n1 := first.styleRef.value;
    assert head.children[0].node == n1;
    second := new Controller(Blue, Options(Some(""), None, None, None, None), "", head);
    StyleTagProperties.LoadCreates(second.config, second.Abs());
    second.Mount();
    assert head.children[0].node == n1 && head.children[1].node == second.styleRef.value;
  }

  /** With the empty id nothing is shared: each unload removes only its own
      element and neither throws. */
  method EmptyIdNotShared()
    returns (afterBoth: seq<StyleRecord>, secondUnload: Outcome, afterSecond: seq<StyleRecord>,
             firstUnload: Outcome, afterFirst: seq<StyleRecord>)
    ensures afterBoth == [StyleRecord("", "", Red), StyleRecord("", "", Blue)]
    ensures secondUnload == Completed && afterSecond == [StyleRecord("", "", Red)]
    ensures firstUnload == Completed && afterFirst == []
  {
    var head, first, second := MountTwoWithEmptyId();
    afterBoth := Records(head.children);
    ghost var n1 := first.styleRef.value;
    secondUnload := second.Unload();
    afterSecond := Records(head.children);
    assert Nodes(head.children) == [n1];
    firstUnload := first.Unload();
    afterFirst := Records(head.children);
  }

  /** Two controllers given the empty id: the second unmounts, and the first
      still owns its element, so its unload completes. */
  method EmptyIdTeardown() returns (afterTeardown: seq<StyleRecord>, firstUnload: Outcome, afterFirst: seq<StyleRecord>)
    ensures afterTeardown == [StyleRecord("", "", Red)]
    ensures firstUnload == Completed && afterFirst == []
  {
    var head, first, second := MountTwoWithEmptyId();
    ghost var n1 := first.styleRef.value;
    var r := second.Teardown();
    afterTeardown := Records(head.children);
    assert Nodes(head.children) == [n1];
    firstUnload := first.Unload();
    afterFirst := Records(head.children);
  }

  /** Two controllers sharing a non-empty id: an update through the second
      rewrites the shared element, and the first, which still finds its
      element in the head, then unloads it. */
  method SharedIdUpdate(id: string) returns (afterUpdate: seq<StyleRecord>, firstUnload: Outcome, afterFirst: seq<StyleRecord>)
    requires id != ""
    ensures afterUpdate == [StyleRecord(id, "", Red)]
    ensures firstUnload == Completed && afterFirst == []
  {
    var head, first, second := MountTwoWithSharedId(id);
    second.UpdateCss(Red);
    afterUpdate := Records(head.children);
    firstUnload := first.Unload();
    afterFirst := Records(head.children);
  }

  /** Two controllers sharing a non-empty id: the second unloads the shared
      element and loads again, which creates a new element. The first still
      holds the removed element, so its unload throws a NotFoundError. */
  method StaleAfterReload(id: string) returns (afterReload: seq<StyleRecord>, firstUnload: Outcome)
    requires id != ""
    ensures afterReload == [StyleRecord(id, "", Blue)]
    ensures firstUnload == NotFoundError
  {
    var head, first, second := MountTwoWithSharedId(id);
    var r := second.Unload();
    StyleTagProperties.LoadCreates(second.config, second.Abs());
    second.Load();
    afterReload := Records(head.children);
    firstUnload := first.Unload();
  }
}

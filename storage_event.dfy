/** The change notification handed to storage listeners: a hand-written
    `StorageEvent` with the shape of the platform's event interface. */
module StorageEvents {
  import opened Wrappers
  import opened Js

  /** The constructor's optional dictionary argument. A member may be left
      out, given as `null`, or given a value; `storageArea` is the storage
      object that changed. */
  datatype StorageEventInit = StorageEventInit(
    key: Nullish<string>,
    newValue: Nullish<string>,
    oldValue: Nullish<string>,
    storageArea: Nullish<object>,
    url: Nullish<string>)

  /** The read-only part of a constructed event: what a listener reads. */
  datatype EventData = EventData(
    eventType: string,
    key: Option<string>,
    newValue: Option<string>,
    oldValue: Option<string>,
    storageArea: Option<object>,
    url: string)

  /** The dictionary with every member left out. */
  function NoInit(): StorageEventInit {
    StorageEventInit(Missing, Missing, Missing, Missing, Missing)
  }

  /** The read-only fields the constructor fills in: the type as given, the
      four nullable members with `?? null` and the url with `?? ""`. A missing
      dictionary behaves as one whose members are all left out. */
  function Initialized(eventType: string, eventInitDict: Option<StorageEventInit>): (e: EventData)
    ensures e.eventType == eventType
    ensures eventInitDict.None? ==>
      e.key.None? && e.newValue.None? && e.oldValue.None? && e.storageArea.None? && e.url == ""
    ensures eventInitDict.Some? ==>
      var init := eventInitDict.value;
      && (e.key.Some? <==> init.key.Given?)
      && (e.newValue.Some? <==> init.newValue.Given?)
      && (e.oldValue.Some? <==> init.oldValue.Given?)
      && (e.storageArea.Some? <==> init.storageArea.Given?)
      && (init.key.Given? ==> e.key.value == init.key.value)
      && (init.newValue.Given? ==> e.newValue.value == init.newValue.value)
      && (init.oldValue.Given? ==> e.oldValue.value == init.oldValue.value)
      && (init.storageArea.Given? ==> e.storageArea.value == init.storageArea.value)
      && (init.url.Given? ==> e.url == init.url.value)
      && (!init.url.Given? ==> e.url == "")
  {
    var init := if eventInitDict.Some? then eventInitDict.value else NoInit();
    EventData(
      eventType,
      Coalesce(init.key),
      Coalesce(init.newValue),
      Coalesce(init.oldValue),
      Coalesce(init.storageArea),
      CoalesceTo(init.url, ""))
  }

  class StorageEvent {
    const eventType: string
    const key: Option<string>
    const newValue: Option<string>
    const oldValue: Option<string>
    const storageArea: Option<object>
    const url: string

    const AT_TARGET: int := 2
    const BUBBLING_PHASE: int := 3
    const CAPTURING_PHASE: int := 1
    const NONE: int := 0

    var bubbles: bool
    var cancelable: bool
    var cancelBubble: bool
    var composed: bool
    var currentTarget: Option<object>
    var defaultPrevented: bool
    var eventPhase: int
    var isTrusted: bool
    var returnValue: bool
    var srcElement: Option<object>
    var target: Option<object>

    /** The read-only fields as one value. */
    function Data(): EventData {
      EventData(eventType, key, newValue, oldValue, storageArea, url)
    }

    /** A freshly constructed event has not been dispatched, prevented or stopped. */
    ghost predicate Pristine()
      reads this
    {
      && !bubbles && !cancelable && !cancelBubble && !composed
      && currentTarget.None? && !defaultPrevented && eventPhase == NONE
      && !isTrusted && returnValue && srcElement.None? && target.None?
    }

    constructor (eventType: string, eventInitDict: Option<StorageEventInit>)
      ensures Data() == Initialized(eventType, eventInitDict)
      ensures Pristine()
    {
      var e := Initialized(eventType, eventInitDict);
      this.eventType := eventType;
      this.key := e.key;
      this.newValue := e.newValue;
      this.oldValue := e.oldValue;
      this.storageArea := e.storageArea;
      this.url := e.url;
      bubbles, cancelable, cancelBubble, composed := false, false, false, false;
      currentTarget, defaultPrevented, eventPhase := None, false, 0;
      isTrusted, returnValue, srcElement, target := false, true, None, None;
    }

    /** Sets `defaultPrevented`, whether or not the event is cancelable. */
    method PreventDefault()
      modifies this`defaultPrevented
      ensures defaultPrevented
    {
      defaultPrevented := true;
    }

    method StopPropagation()
      modifies this`cancelBubble
      ensures cancelBubble
    {
      cancelBubble := true;
    }

    /** Has the same effect as `StopPropagation`. */
    method StopImmediatePropagation()
      modifies this`cancelBubble
      ensures cancelBubble
    {
      cancelBubble := true;
    }

    /** Kept for compatibility; changes nothing. */
    method InitEvent()
      ensures unchanged(this)
    {
    }

    /** The event never travels along a path of targets. */
    method ComposedPath() returns (path: seq<object>)
      ensures path == []
    {
      path := [];
    }
  }
}

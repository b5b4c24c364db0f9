/** `MockExecutor`: the in-memory executor the tests drive.  Every call is
    appended to that operation's log, and its reply is the most recently
    queued response for that operation, removed from the queue; with an empty
    queue a fixed default reply is given. */
module MockExecutor {
  import opened Wrappers
  import opened KittyTypes
  import opened Ls
  import opened FocusTab
  import opened Launch

  /** The reply a call takes from a response queue: the last one pushed, or
      the default when the queue is empty. */
  function Top<T>(queue: seq<T>, default: T): T {
    if queue == [] then default else queue[|queue| - 1]
  }

  /** The queue after a call has taken its reply. */
  function Pop<T>(queue: seq<T>): (rest: seq<T>)
    ensures queue != [] ==> |rest| == |queue| - 1
  {
    if queue == [] then [] else queue[..|queue| - 1]
  }

  /** Queuing a response and then calling gives back exactly that response
      and leaves the queue as it was (last in, first out). */
  lemma PushThenPop<T>(queue: seq<T>, response: T, default: T)
    ensures Top(queue + [response], default) == response
    ensures Pop(queue + [response]) == queue
  {
  }

  /** Two queued responses are served newest first. */
  lemma ServedNewestFirst<T>(queue: seq<T>, first: T, second: T, default: T)
    ensures Top(queue + [first, second], default) == second
    ensures Top(Pop(queue + [first, second]), default) == first
  {
    assert Pop(queue + [first, second]) == queue + [first];
  }

  const DefaultLsResponse: Result<KittyLsResponse> := Ok([])
  const DefaultFocusTabResponse: Result<KittyCommandResult<()>> := Ok(SuccessEmpty())
  const DefaultLaunchResponse: Result<KittyCommandResult<KittyLaunchResponse>> :=
    Ok(SuccessResult(KittyLaunchResponse(None, None)))

  class MockExecutor {
    var lsCalls: seq<KittenLsCommand>
    var focusTabCalls: seq<KittenFocusTabCommand>
    var launchCalls: seq<KittenLaunchCommand>
    var lsResponses: seq<Result<KittyLsResponse>>
    var focusTabResponses: seq<Result<KittyCommandResult<()>>>
    var launchResponses: seq<Result<KittyCommandResult<KittyLaunchResponse>>>

    /** `new()`: nothing called, nothing queued. */
    constructor ()
      ensures lsCalls == [] && focusTabCalls == [] && launchCalls == []
      ensures lsResponses == [] && focusTabResponses == [] && launchResponses == []
    {
      lsCalls, focusTabCalls, launchCalls := [], [], [];
      lsResponses, focusTabResponses, launchResponses := [], [], [];
    }

    /** `with_default_socket()` (and `Default`) build the same empty mock. */
    static method WithDefaultSocket() returns (m: MockExecutor)
      ensures fresh(m)
      ensures m.lsCalls == [] && m.focusTabCalls == [] && m.launchCalls == []
      ensures m.lsResponses == [] && m.focusTabResponses == [] && m.launchResponses == []
    {
      m := new MockExecutor();
    }

    method ExpectLsResponse(response: Result<KittyLsResponse>)
      modifies this`lsResponses
      ensures lsResponses == old(lsResponses) + [response]
    {
      lsResponses := lsResponses + [response];
    }

    method ExpectFocusTabResponse(response: Result<KittyCommandResult<()>>)
      modifies this`focusTabResponses
      ensures focusTabResponses == old(focusTabResponses) + [response]
    {
      focusTabResponses := focusTabResponses + [response];
    }

    method ExpectLaunchResponse(response: Result<KittyCommandResult<KittyLaunchResponse>>)
      modifies this`launchResponses
      ensures launchResponses == old(launchResponses) + [response]
    {
      launchResponses := launchResponses + [response];
    }

    function LsCallCount(): (n: nat)
      reads this
      ensures n == |lsCalls|
    {
      |lsCalls|
    }

    function FocusTabCallCount(): (n: nat)
      reads this
      ensures n == |focusTabCalls|
    {
      |focusTabCalls|
    }

    function LaunchCallCount(): (n: nat)
      reads this
      ensures n == |launchCalls|
    {
      |launchCalls|
    }

    function GetLsCalls(): (calls: seq<KittenLsCommand>)
      reads this
      ensures calls == lsCalls
    {
      lsCalls
    }

    function GetFocusTabCalls(): (calls: seq<KittenFocusTabCommand>)
      reads this
      ensures calls == focusTabCalls
    {
      focusTabCalls
    }

    function GetLaunchCalls(): (calls: seq<KittenLaunchCommand>)
      reads this
      ensures calls == launchCalls
    {
      launchCalls
    }

    /** `ls`: log the query, answer with the newest queued listing, or an
        empty listing. */
    method Ls(command: KittenLsCommand) returns (r: Result<KittyLsResponse>)
      modifies this`lsCalls, this`lsResponses
      ensures lsCalls == old(lsCalls) + [command]
      ensures r == Top(old(lsResponses), DefaultLsResponse)
      ensures lsResponses == Pop(old(lsResponses))
    {
      lsCalls := lsCalls + [command];
      if lsResponses == [] {
        r := DefaultLsResponse;
      } else {
        r := lsResponses[|lsResponses| - 1];
        lsResponses := lsResponses[..|lsResponses| - 1];
      }
    }

    /** `focus_tab`: log the command, answer with the newest queued reply, or
        an empty success. */
    method FocusTab(command: KittenFocusTabCommand) returns (r: Result<KittyCommandResult<()>>)
      modifies this`focusTabCalls, this`focusTabResponses
      ensures focusTabCalls == old(focusTabCalls) + [command]
      ensures r == Top(old(focusTabResponses), DefaultFocusTabResponse)
      ensures focusTabResponses == Pop(old(focusTabResponses))
    {
      focusTabCalls := focusTabCalls + [command];
      if focusTabResponses == [] {
        r := DefaultFocusTabResponse;
      } else {
        r := focusTabResponses[|focusTabResponses| - 1];
        focusTabResponses := focusTabResponses[..|focusTabResponses| - 1];
      }
    }

    /** `launch`: log the command, answer with the newest queued reply, or a
        success carrying neither a tab nor a window id. */
    method Launch(command: KittenLaunchCommand) returns (r: Result<KittyCommandResult<KittyLaunchResponse>>)
      modifies this`launchCalls, this`launchResponses
      ensures launchCalls == old(launchCalls) + [command]
      ensures r == Top(old(launchResponses), DefaultLaunchResponse)
      ensures launchResponses == Pop(old(launchResponses))
    {
      launchCalls := launchCalls + [command];
      if launchResponses == [] {
        r := DefaultLaunchResponse;
      } else {
        r := launchResponses[|launchResponses| - 1];
        launchResponses := launchResponses[..|launchResponses| - 1];
      }
    }
  }

  /** The defaults an empty queue gives: an empty listing, an empty success
      for `focus_tab`, and for `launch` a success whose payload names no tab
      and no window. */
  lemma EmptyQueueDefaults()
    ensures Top([], DefaultLsResponse) == Ok([])
    ensures Top([], DefaultFocusTabResponse).Ok? && IsSuccess(Top([], DefaultFocusTabResponse).value)
    ensures Top([], DefaultFocusTabResponse).value.data.None?
    ensures Top([], DefaultLaunchResponse).Ok?
    ensures IntoResult(Top([], DefaultLaunchResponse).value) == Ok(KittyLaunchResponse(None, None))
  {
  }
}

/** The single-page client's routing: the location hash chosen at mount
    time picks a page, and the page together with what has been loaded picks
    the screen. */
module Router {
  import opened Common
  import opened Text
  import Schema
  import Server

  datatype Page = Home | View | Create | Edit

  /** A page, and the message id the route sets (only the view route sets one). */
  datatype Route = Route(page: Page, messageId: Option<string>)

  /** `window.location.hash` of a URL: the part from the first `#` on, or the
      empty string when the fragment is missing or empty. */
  function LocationHash(url: string): (hash: string)
    ensures '#' !in url ==> hash == ""
    ensures hash != "" ==> hash[0] == '#' && |hash| > 1
  {
    if url == [] then ""
    else if url[0] == '#' then (if |url| == 1 then "" else url)
    else LocationHash(url[1..])
  }

  /** A prefix without `#` does not change the hash. */
  lemma {:induction false} LocationHashSkipsPrefix(prefix: string, rest: string)
    requires '#' !in prefix
    ensures LocationHash(prefix + rest) == LocationHash(rest)
  {
    if prefix != [] {
      assert prefix[0] in prefix;
      assert (prefix + rest)[1..] == prefix[1..] + rest;
      assert LocationHash(prefix + rest) == LocationHash(prefix[1..] + rest);
      LocationHashSkipsPrefix(prefix[1..], rest);
    } else {
      assert prefix + rest == rest;
    }
  }

  /** The hash of a URL with a `#` is everything from its first `#` on, and
      the empty string when nothing follows that `#`. */
  lemma LocationHashIsFragment(beforeHash: string, fragment: string)
    requires '#' !in beforeHash
    ensures LocationHash(beforeHash + "#" + fragment) == if fragment == "" then "" else "#" + fragment
  {
    LocationHashSkipsPrefix(beforeHash, "#" + fragment);
    assert beforeHash + "#" + fragment == beforeHash + ("#" + fragment);
  }

  /** `window.location.hash.slice(1)`. */
  function HashPath(hash: string): (path: string)
    ensures hash == [] ==> path == []
    ensures hash != [] ==> [hash[0]] + path == hash
  {
    if hash == [] then [] else hash[1..]
  }

  /** The pieces of a `/view/...` path: the id is the third one, i.e. the
      first piece after the prefix. */
  lemma ViewPathPieces(path: string)
    requires StartsWith(path, "/view/")
    ensures |Split(path, '/')| >= 3
    ensures Split(path, '/')[2] == Split(path[6..], '/')[0]
  {
    var rest := path[6..];
    assert path == "" + ['/'] + ("view" + ['/'] + rest);
    SplitAfterPiece("", "view" + ['/'] + rest, '/');
    SplitAfterPiece("view", rest, '/');
  }

  /** The route the mount effect derives from `path`. */
  function ParseRoute(path: string): (r: Route)
    ensures r.page == View <==> StartsWith(path, "/view/")
    ensures r.page == Create <==> path == "/create"
    ensures r.page == Edit <==> path == "/edit"
    ensures r.messageId.Some? <==> r.page == View
  {
    if StartsWith(path, "/view/") then
      ViewPathPieces(path);
      Route(View, Some(Split(path, '/')[2]))
    else if path == "/create" then Route(Create, None)
    else if path == "/edit" then Route(Edit, None)
    else Route(Home, None)
  }

  /** A view path built from an id without `/` routes back to that id. */
  lemma ViewRouteRoundTrip(id: string)
    requires '/' !in id
    ensures ParseRoute("/view/" + id) == Route(View, Some(id))
  {
    var path := "/view/" + id;
    assert StartsWith(path, "/view/");
    assert path[6..] == id;
    ViewPathPieces(path);
    SplitWithoutSeparator(id, '/');
  }

  /** `#/view/` with nothing after it sets an empty id, which the fetch
      effect treats as absent: such a view page never loads. */
  lemma EmptyViewIdIsFalsy()
    ensures ParseRoute("/view/") == Route(View, Some(""))
    ensures !Schema.Present(ParseRoute("/view/").messageId)
  {
    ViewRouteRoundTrip("");
    assert "/view/" + "" == "/view/";
  }

  /** Anything after a further `/` is ignored: the id is the third piece. */
  lemma ViewRouteIgnoresTail(id: string, tail: string)
    requires '/' !in id
    ensures ParseRoute("/view/" + id + "/" + tail) == Route(View, Some(id))
  {
    var path := "/view/" + id + "/" + tail;
    assert StartsWith(path, "/view/");
    assert path[6..] == id + ['/'] + tail;
    ViewPathPieces(path);
    SplitAfterPiece(id, tail, '/');
  }

  /** What `App` renders. */
  datatype Screen =
    | MessageScreen | LoadingScreen | CreateFormScreen | QrResultScreen | EditScreen | HomeScreen

  /** The page dispatch of `App`. */
  function Dispatch(page: Page, hasMessageData: bool, hasQrResult: bool): (s: Screen)
    ensures s == MessageScreen <==> page == View && hasMessageData
    ensures s == LoadingScreen <==> page == View && !hasMessageData
    ensures s == CreateFormScreen <==> page == Create && !hasQrResult
    ensures s == QrResultScreen <==> page == Create && hasQrResult
    ensures s == EditScreen <==> page == Edit
    ensures s == HomeScreen <==> page == Home
  {
    match page
    case View => if hasMessageData then MessageScreen else LoadingScreen
    case Create => if hasQrResult then QrResultScreen else CreateFormScreen
    case Edit => EditScreen
    case Home => HomeScreen
  }

  /** The `App` component's state. */
  class App {
    var page: Page
    var messageId: Option<string>
    var qrResult: Option<Server.Created>
    var messageData: Option<Schema.Projection>

    constructor ()
      ensures page == Home && messageId == None && qrResult == None && messageData == None
    {
      page := Home;
      messageId := None;
      qrResult := None;
      messageData := None;
    }

    /** The mount effect: route by the location hash. */
    method RouteFromHash(hash: string)
      modifies this
      ensures page == ParseRoute(HashPath(hash)).page
      ensures page == View ==> messageId == ParseRoute(HashPath(hash)).messageId
      ensures page != View ==> messageId == old(messageId)
      ensures qrResult == old(qrResult) && messageData == old(messageData)
    {
      var route := ParseRoute(HashPath(hash));
      if route.page == View {
        messageId := route.messageId;
      }
      page := route.page;
    }

    /** The view-page effect: when on the view page with a non-empty id it
        fetches the message; `response` is what the server answered. An
        error answer sends the client home. */
    method LoadMessage(response: Server.Response<Schema.Projection>)
      modifies this
      ensures !(old(page) == View && Schema.Present(old(messageId))) ==>
        page == old(page) && messageData == old(messageData)
      ensures old(page) == View && Schema.Present(old(messageId)) && response.Ok? ==>
        page == View && messageData == Some(response.value)
      ensures old(page) == View && Schema.Present(old(messageId)) && !response.Ok? ==>
        page == Home && messageData == old(messageData)
      ensures messageId == old(messageId) && qrResult == old(qrResult)
    {
      if page == View && Schema.Present(messageId) {
        if response.Ok? {
          messageData := Some(response.value);
        } else {
          page := Home;
        }
      }
    }

    /** The create form's `onSuccess`. */
    method ShowQrResult(result: Server.Created)
      modifies this
      ensures qrResult == Some(result)
      ensures page == old(page) && messageId == old(messageId) && messageData == old(messageData)
    {
      qrResult := Some(result);
    }

    /** "Create Another Message": back to the empty form. */
    method CreateAnother()
      modifies this
      ensures qrResult == None
      ensures page == old(page) && messageId == old(messageId) && messageData == old(messageData)
    {
      qrResult := None;
    }

    /** The home page's "Create Message" button. */
    method OpenCreate()
      modifies this
      ensures page == Create && qrResult == None
      ensures messageId == old(messageId) && messageData == old(messageData)
    {
      page := Create;
      qrResult := None;
    }

    /** The home page's "View Message" button; `input` is what the prompt
        returned (`None` when it was cancelled). */
    method OpenView(input: Option<string>)
      modifies this
      ensures Schema.Present(input) ==> page == View && messageId == input
      ensures !Schema.Present(input) ==> page == old(page) && messageId == old(messageId)
      ensures qrResult == old(qrResult) && messageData == old(messageData)
    {
      if Schema.Present(input) {
        messageId := input;
        page := View;
      }
    }

    /** The home page's "Edit Message" button. */
    method OpenEdit()
      modifies this
      ensures page == Edit
      ensures messageId == old(messageId) && qrResult == old(qrResult) && messageData == old(messageData)
    {
      page := Edit;
    }

    function CurrentScreen(): (s: Screen)
      reads this
      ensures s == MessageScreen <==> page == View && messageData.Some?
      ensures s == QrResultScreen <==> page == Create && qrResult.Some?
    {
      Dispatch(page, messageData.Some?, qrResult.Some?)
    }
  }
}

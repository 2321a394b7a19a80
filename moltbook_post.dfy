/**
 * The Moltbook posting helper: the title and body taken from a markdown file,
 * the request `create_post` builds, and what it makes of the reply. The HTTP
 * call is abstracted as the reply it gives; the API key as the value it loaded.
 */
module MoltbookPost {
  import opened PyStr
  import opened PyData

  const ApiBase := "https://www.moltbook.com/api/v1"
  const DefaultTitle := "RAG Skill Announcement"

  // ---------------------------------------------------------------------------
  // Title and body of a markdown post

  predicate IsHeading(line: string) {
    StartsWith(line, "#")
  }

  /** The index of the first heading line, if there is one. */
  function FirstHeading(lines: seq<string>): (r: Option<nat>)
    ensures r.Some? ==> r.value < |lines| && IsHeading(lines[r.value])
                        && forall j :: 0 <= j < r.value ==> !IsHeading(lines[j])
    ensures r.None? <==> forall j :: 0 <= j < |lines| ==> !IsHeading(lines[j])
  {
    if lines == [] then None
    else if IsHeading(lines[0]) then Some(0)
    else match FirstHeading(lines[1..])
      case None => None
      case Some(i) => Some(i + 1)
  }

  /** The title a heading line gives: its leading `#`s dropped, then stripped. */
  function HeadingTitle(line: string): (r: string)
    ensures r == [] || (!IsSpace(r[0]) && !IsSpace(r[|r| - 1]))
  {
    Strip(LStripChar(line, '#'))
  }

  /** The title of a post: from its first heading line, else the default. */
  function Title(content: string): string {
    var lines := Split(content, "\n");
    match FirstHeading(lines)
    case None => DefaultTitle
    case Some(i) => HeadingTitle(lines[i])
  }

  /** The body of a post: without its first line, stripped, when it starts with `#` and has a second line; else as it is. */
  function Body(content: string): string {
    if StartsWith(content, "#") then
      var parts := SplitFirst(content, "\n");
      if |parts| > 1 then Strip(parts[1]) else content
    else content
  }

  /** A heading line preceded only by lines that are not headings is the first heading. */
  lemma FirstHeadingAt(lines: seq<string>, k: nat)
    requires k < |lines| && IsHeading(lines[k])
    requires forall j :: 0 <= j < k ==> !IsHeading(lines[j])
    ensures FirstHeading(lines) == Some(k)
  {
    var r := FirstHeading(lines);
    assert r.Some?;
  }

  /** The title comes from the first heading line, whatever follows it. */
  lemma TitleFromFirstHeading(content: string, k: nat)
    requires var lines := Split(content, "\n");
      k < |lines| && IsHeading(lines[k]) && forall j :: 0 <= j < k ==> !IsHeading(lines[j])
    ensures Title(content) == HeadingTitle(Split(content, "\n")[k])
  {
    FirstHeadingAt(Split(content, "\n"), k);
  }

  /** With no heading line at all, the title is the default. */
  lemma TitleDefault(content: string)
    requires forall j :: 0 <= j < |Split(content, "\n")| ==> !IsHeading(Split(content, "\n")[j])
    ensures Title(content) == DefaultTitle
  {
  }

  /** The first newline of a heading line, a newline and the rest is the one after the heading. */
  lemma FindNewline(first: string, rest: string)
    requires !Contains(first, "\n")
    ensures Find(first + "\n" + rest, "\n") == |first|
  {
    var c := first + "\n" + rest;
    assert OccursAt(c, "\n", |first|);
    var i := Find(c, "\n");
    if 0 <= i < |first| {
      assert c[i..i + 1] == first[i..i + 1];
      assert OccursAt(first, "\n", i);
    }
  }

  /** A post that opens with a heading line: the title is that heading, the body is the rest stripped. */
  lemma HeadedPost(first: string, rest: string)
    requires IsHeading(first) && !Contains(first, "\n")
    ensures Title(first + "\n" + rest) == HeadingTitle(first)
    ensures Body(first + "\n" + rest) == Strip(rest)
  {
    var c := first + "\n" + rest;
    FindNewline(first, rest);
    assert c[..|first|] == first;
    assert c[|first| + 1..] == rest;
    assert Split(c, "\n")[0] == first;
    FirstHeadingAt(Split(c, "\n"), 0);
    assert StartsWith(c, "#");
  }

  /** A post whose first line is not a heading, or which has only one line, keeps its body as it is. */
  lemma BodyUnchanged(content: string)
    requires !StartsWith(content, "#") || !Contains(content, "\n")
    ensures Body(content) == content
  {
  }

  // ---------------------------------------------------------------------------
  // The request and the reply

  /** What the HTTP call gives back: the status and the body decoded as JSON (`None` when it is not JSON), or a transport failure. */
  datatype Reply = Response(status: int, body: Option<Json>) | NetworkError(message: string)

  /** The request `create_post` sends. */
  datatype Request = Request(url: string, headers: seq<(string, string)>, payload: seq<(string, Json)>, timeout: nat)

  /** `if url:` for an optional string. */
  predicate UrlGiven(url: Option<string>) {
    url.Some? && url.value != ""
  }

  /** The JSON payload: the submolt, title and content, and the url only when one is given. */
  function Payload(title: string, content: string, submolt: string, url: Option<string>): seq<(string, Json)> {
    [("submolt", JStr(submolt)), ("title", JStr(title)), ("content", JStr(content))]
      + (if UrlGiven(url) then [("url", JStr(url.value))] else [])
  }

  function PostRequest(apiKey: Json, title: string, content: string, submolt: string, url: Option<string>): Request {
    Request(ApiBase + "/posts",
            [("Authorization", "Bearer " + ToStr(apiKey)), ("Content-Type", "application/json")],
            Payload(title, content, submolt, url), 10)
  }

  /** The payload always carries the submolt, title and content, and carries a url exactly when one is given. */
  lemma PayloadFields(title: string, content: string, submolt: string, url: Option<string>)
    ensures var p := Payload(title, content, submolt, url);
      Lookup(p, "submolt") == Some(JStr(submolt))
      && Lookup(p, "title") == Some(JStr(title))
      && Lookup(p, "content") == Some(JStr(content))
      && (Has(p, "url") <==> UrlGiven(url))
      && (UrlGiven(url) ==> Lookup(p, "url") == Some(JStr(url.value)))
  {
    var tail := if UrlGiven(url) then [("url", JStr(url.value))] else [];
    var p := Payload(title, content, submolt, url);
    var p1, p2 := p[1..], p[2..];
    assert p2[1..] == tail;
    assert Lookup(p2, "content") == Some(JStr(content));
    assert p1[1..] == p2;
    assert Lookup(p, "url") == Lookup(p1, "url") == Lookup(p2, "url") == Lookup(tail, "url");
  }

  /** After a 201: the post's id and author are read from the body (a body that is not JSON is a request exception, caught). */
  function CreatedOutcome(body: Option<Json>): Result<bool> {
    match body
    case None => Ok(false)
    case Some(result) =>
      if !result.JObj? then Err(AttributeError)
      else
        var data := GetOr(result.members, "data", JObj([]));
        if !data.JObj? then Err(AttributeError)
        else if Has(result.members, "data") && Has(data.members, "author") then
          var author := Get(data.members, "author");
          if !author.JObj? then Err(TypeError)
          else if !Has(author.members, "name") then Err(KeyError)
          else Ok(true)
        else Ok(true)
  }

  /** After a 429: the retry hint is read from the body. */
  function RateLimitedOutcome(body: Option<Json>): Result<bool> {
    match body
    case None => Ok(false)
    case Some(error) =>
      if !error.JObj? then Err(AttributeError)
      else if !GetOr(error.members, "hint", JObj([])).JObj? then Err(AttributeError)
      else Ok(false)
  }

  /** What `create_post` makes of the reply once the request is sent. */
  function Outcome(reply: Reply): Result<bool> {
    match reply
    case NetworkError(_) => Ok(false)
    case Response(status, body) =>
      if status == 201 then CreatedOutcome(body)
      else if status == 429 then RateLimitedOutcome(body)
      else Ok(false)
  }

  /** `create_post`, given the loaded API key and the reply the request gets. */
  method CreatePost(title: string, content: string, submolt: string, url: Option<string>, apiKey: Json, reply: Reply)
    returns (request: Option<Request>, r: Result<bool>)
    ensures !Truthy(apiKey) ==> request == None && r == Ok(false)
    ensures Truthy(apiKey) ==> request == Some(PostRequest(apiKey, title, content, submolt, url)) && r == Outcome(reply)
  {
    if !Truthy(apiKey) {
      return None, Ok(false);
    }
    var headers := [("Authorization", "Bearer " + ToStr(apiKey)), ("Content-Type", "application/json")];
    var data := [("submolt", JStr(submolt)), ("title", JStr(title)), ("content", JStr(content))];
    if UrlGiven(url) {
      data := data + [("url", JStr(url.value))];
    }
    assert data == Payload(title, content, submolt, url);
    request := Some(Request(ApiBase + "/posts", headers, data, 10));
    match reply {
      case NetworkError(_) =>
        r := Ok(false);
      case Response(status, body) =>
        if status == 201 {
          r := CreatedOutcome(body);
        } else if status == 429 {
          r := RateLimitedOutcome(body);
        } else {
          r := Ok(false);
        }
    }
  }

  /** A 201 body the success branch can read: an object whose `data`, if any, is an object whose `author`, if any, is an object with a name. */
  predicate ReadableCreated(body: Option<Json>) {
    body.Some? && body.value.JObj?
    && var data := GetOr(body.value.members, "data", JObj([]));
    data.JObj?
    && (Has(data.members, "author") ==> Get(data.members, "author").JObj? && Has(Get(data.members, "author").members, "name"))
  }

  /** The post counts as made exactly when the status is 201 and the reply body can be read. */
  lemma PostedIffCreated(reply: Reply)
    ensures Outcome(reply) == Ok(true) <==> reply.Response? && reply.status == 201 && ReadableCreated(reply.body)
  {
    if reply.Response? && reply.body.Some? && reply.body.value.JObj? {
      var ps := reply.body.value.members;
      if !Has(ps, "data") {
        assert GetOr(ps, "data", JObj([])) == JObj([]);
        assert !Has([], "author");
      }
    }
  }

  /**
   * A transport failure and a status other than 201 and 429 give false; a 429
   * never counts as posted; an exception escapes only while reading a JSON body
   * after a 201 or a 429.
   */
  lemma OutcomeCases(reply: Reply)
    ensures reply.NetworkError? ==> Outcome(reply) == Ok(false)
    ensures reply.Response? && reply.status != 201 && reply.status != 429 ==> Outcome(reply) == Ok(false)
    ensures reply.Response? && reply.status == 429 ==> Outcome(reply) != Ok(true)
    ensures Outcome(reply).Err? ==> reply.Response? && (reply.status == 201 || reply.status == 429) && reply.body.Some?
  {
  }

  // ---------------------------------------------------------------------------
  // Posting a file

  /** `post_from_file`, given the file's text (`None` when it does not exist), the key and the reply. */
  method PostFromFile(file: Option<string>, submolt: string, apiKey: Json, reply: Reply)
    returns (request: Option<Request>, r: Result<bool>)
    ensures file.None? || !Truthy(apiKey) ==> request == None && r == Ok(false)
    ensures file.Some? && Truthy(apiKey) ==>
              request == Some(PostRequest(apiKey, Title(file.value), Body(file.value), submolt, None))
              && r == Outcome(reply)
  {
    if file.None? {
      return None, Ok(false);
    }
    var content := file.value;
    var lines := Split(content, "\n");
    var title := DefaultTitle;
    var k := 0;
    while k < |lines|
      invariant 0 <= k <= |lines|
      invariant forall j :: 0 <= j < k ==> !IsHeading(lines[j])
      invariant title == DefaultTitle
    {
      if StartsWith(lines[k], "#") {
        title := Strip(LStripChar(lines[k], '#'));
        FirstHeadingAt(lines, k);
        break;
      }
      k := k + 1;
    }
    assert title == Title(file.value);
    if StartsWith(content, "#") {
      var parts := SplitFirst(content, "\n");
      if |parts| > 1 {
        content := Strip(parts[1]);
      }
    }
    request, r := CreatePost(title, content, submolt, None, apiKey, reply);
  }
}

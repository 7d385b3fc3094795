/**
  The attachment download handler (`file_downloader`): a chain of fail-closed
  checks over the request and what the host application reports about the
  thread, the message and the stored file, ending either in no output at all
  or in status 200, six fixed response headers and the file's bytes.

  The host's lookups (thread recipients, post meta, message records, posts,
  attached-file paths, the file system) are parameters, gathered in `Host`;
  the response is the returned `Outcome` instead of calls that send headers
  and stop the request.
 */
module Downloader {
  import opened Php

  /** The routing state and session the handler reads. */
  datatype Request = Request(
    displayedUserId: int,          // 0 when no member profile is being displayed
    component: string,
    action: string,
    actionVariables: seq<string>,  // the route's positional variables
    loggedInUserId: int)           // 0 when nobody is logged in

  /** What the host application answers, as functions of the ids asked about. */
  datatype Host = Host(
    recipients: nat -> seq<int>,     // user_id of each recipient of the thread loaded for an id
    messageMeta: nat -> string,      // `_bp_message_id` meta of a post ("" when unset)
    messageThreadId: string -> int,  // thread_id of the message loaded for that meta value
    postType: nat -> string,         // post_type of a post ("" when there is no post)
    mimeType: nat -> string,         // post_mime_type of a post
    attachedFile: nat -> string,     // the file path stored for an attachment
    fileExists: string -> bool,
    fileSize: string -> nat)

  /** The checks in the order the handler makes them; each failure ends the request silently. */
  datatype Failure = RouteMismatch | NotParticipant | NoLinkedMessage | OtherThread | NotAnAttachment | FileMissing

  datatype Header = Header(name: string, value: string)

  /**
    The handler's effect: nothing sent (tagged with the check that failed,
    which the response itself does not reveal), or a streamed file.
   */
  datatype Outcome = NoOutput(failed: Failure) | Stream(status: nat, headers: seq<Header>, file: string)

  /** `bp_action_variable(i)`; a missing variable is `false`, which converts to 0 like "". */
  function ActionVariable(vars: seq<string>, i: nat): (v: string)
    ensures i < |vars| ==> v == vars[i]
    ensures i >= |vars| ==> AbsInt(v) == 0
  {
    if i < |vars| then vars[i] else ""
  }

  function AttachmentId(req: Request): nat {
    AbsInt(ActionVariable(req.actionVariables, 0))
  }

  function ThreadId(req: Request): nat {
    AbsInt(ActionVariable(req.actionVariables, 1))
  }

  // The six checks, each stated on its own.

  /** The messages component's `attachment` action, on a displayed member profile. */
  predicate RouteMatches(req: Request): (b: bool)
    ensures b ==> req.displayedUserId != 0 && req.component == "messages" && req.action == "attachment"
  {
    req.displayedUserId != 0 && req.component == "messages" && req.action == "attachment"
  }

  /** Some recipient of the requested thread is the logged-in user. */
  predicate IsParticipant(req: Request, host: Host): (b: bool)
    ensures b <==> exists k :: 0 <= k < |host.recipients(ThreadId(req))| && host.recipients(ThreadId(req))[k] == req.loggedInUserId
  {
    req.loggedInUserId in host.recipients(ThreadId(req))
  }

  /** The attachment's message meta is truthy; a value that fails names no message id. */
  predicate HasLinkedMessage(req: Request, host: Host): (b: bool)
    ensures !b ==> AbsInt(host.messageMeta(AttachmentId(req))) == 0
    ensures |host.messageMeta(AttachmentId(req))| >= 2 ==> b
  {
    Truthy(host.messageMeta(AttachmentId(req)))
  }

  /** The linked message's thread id, made non-negative, is the requested thread. */
  predicate InRequestedThread(req: Request, host: Host): (b: bool)
    ensures var t := host.messageThreadId(host.messageMeta(AttachmentId(req)));
            b <==> t == ThreadId(req) || t == -(ThreadId(req) as int)
  {
    Abs(host.messageThreadId(host.messageMeta(AttachmentId(req)))) == ThreadId(req)
  }

  /** The requested post is an attachment; a missing post (type "") never is. */
  predicate IsAttachmentPost(req: Request, host: Host): (b: bool)
    ensures b ==> host.postType(AttachmentId(req)) != ""
    ensures b <==> host.postType(AbsInt(ActionVariable(req.actionVariables, 0))) == "attachment"
  {
    host.postType(AttachmentId(req)) == "attachment"
  }

  /** The file stored for the attachment the first route variable names exists. */
  predicate FilePresent(req: Request, host: Host): (b: bool)
    ensures b <==> host.fileExists(host.attachedFile(AbsInt(ActionVariable(req.actionVariables, 0))))
  {
    host.fileExists(host.attachedFile(AttachmentId(req)))
  }

  /** Whether the check that `f` names passes. */
  predicate Passes(f: Failure, req: Request, host: Host) {
    match f
    case RouteMismatch => RouteMatches(req)
    case NotParticipant => IsParticipant(req, host)
    case NoLinkedMessage => HasLinkedMessage(req, host)
    case OtherThread => InRequestedThread(req, host)
    case NotAnAttachment => IsAttachmentPost(req, host)
    case FileMissing => FilePresent(req, host)
  }

  /** The position of a check in the chain. */
  function Rank(f: Failure): nat {
    match f
    case RouteMismatch => 0
    case NotParticipant => 1
    case NoLinkedMessage => 2
    case OtherThread => 3
    case NotAnAttachment => 4
    case FileMissing => 5
  }

  /**
    The header sequence sent before the file: six headers, the Content-Length
    value reading back as the size it was rendered from.
   */
  function DownloadHeaders(size: nat, fileName: string, mime: string): (h: seq<Header>)
    ensures |h| == 6
    ensures h[3].name == "Content-Length" && AbsInt(h[3].value) == size
  {
    AbsIntOfNatToString(size);
    [ Header("Cache-Control", "cache, must-revalidate"),
      Header("Pragma", "public"),
      Header("Content-Description", "File Transfer"),
      Header("Content-Length", NatToString(size)),
      Header("Content-Disposition", "attachment; filename=" + fileName),
      Header("Content-Type", mime) ]
  }

  /**
    What one request to the handler produces: no output tagged with a check
    that fails, or status 200 streaming the existing file stored for the
    requested attachment.
   */
  function Decide(req: Request, host: Host): (o: Outcome)
    ensures o.Stream? ==> o.status == 200 && o.file == host.attachedFile(AttachmentId(req)) && host.fileExists(o.file)
  {
    if !RouteMatches(req) then NoOutput(RouteMismatch)
    else
      var attachmentId := AttachmentId(req);
      var threadId := ThreadId(req);
      if req.loggedInUserId !in host.recipients(threadId) then NoOutput(NotParticipant)
      else
        var messageId := host.messageMeta(attachmentId);
        if !Truthy(messageId) then NoOutput(NoLinkedMessage)
        else if threadId != Abs(host.messageThreadId(messageId)) then NoOutput(OtherThread)
        else if host.postType(attachmentId) != "attachment" then NoOutput(NotAnAttachment)
        else
          var path := host.attachedFile(attachmentId);
          if !host.fileExists(path) then NoOutput(FileMissing)
          else Stream(200, DownloadHeaders(host.fileSize(path), Basename(path), host.mimeType(attachmentId)), path)
  }

  /**
    The handler as the plugin runs it: the participant flag set by a scan of
    the recipients that stops at the first match, then early returns.
   */
  method FileDownloader(req: Request, host: Host) returns (outcome: Outcome)
    ensures outcome == Decide(req, host)
  {
    if !(req.displayedUserId != 0 && req.component == "messages" && req.action == "attachment") {
      return NoOutput(RouteMismatch);
    }
    var attachmentId := AttachmentId(req);
    var threadId := ThreadId(req);

    var recipients := host.recipients(threadId);
    var isParticipant := false;
    var i := 0;
    while i < |recipients|
      invariant 0 <= i <= |recipients|
      invariant !isParticipant
      invariant req.loggedInUserId !in recipients[..i]
    {
      if req.loggedInUserId == recipients[i] {
        isParticipant := true;
        break;
      }
      i := i + 1;
    }
    if !isParticipant {
      assert recipients[..i] == recipients;
      return NoOutput(NotParticipant);
    }
    assert IsParticipant(req, host);

    var messageId := host.messageMeta(attachmentId);
    if !Truthy(messageId) {
      return NoOutput(NoLinkedMessage);
    }
    if threadId != Abs(host.messageThreadId(messageId)) {
      return NoOutput(OtherThread);
    }
    if host.postType(attachmentId) != "attachment" {
      return NoOutput(NotAnAttachment);
    }
    var mime := host.mimeType(attachmentId);
    var path := host.attachedFile(attachmentId);
    var fileName := Basename(path);
    if host.fileExists(path) {
      var headers := DownloadHeaders(host.fileSize(path), fileName, mime);
      return Stream(200, headers, path);
    }
    return NoOutput(FileMissing);
  }

  // Access rules

  /** A file is streamed exactly when all six checks pass. */
  lemma StreamIffAllChecksPass(req: Request, host: Host)
    ensures Decide(req, host).Stream? <==> forall f :: Passes(f, req, host)
  {
    if forall f :: Passes(f, req, host) {
      assert Passes(RouteMismatch, req, host) && Passes(NotParticipant, req, host);
      assert Passes(NoLinkedMessage, req, host) && Passes(OtherThread, req, host);
      assert Passes(NotAnAttachment, req, host) && Passes(FileMissing, req, host);
    }
    if Decide(req, host).Stream? {
      forall f ensures Passes(f, req, host) {
        AllChecksPassBeforeStream(req, host, f);
      }
    }
  }

  lemma AllChecksPassBeforeStream(req: Request, host: Host, f: Failure)
    requires Decide(req, host).Stream?
    ensures Passes(f, req, host)
  {
  }

  /** The failure tag is the first check, in chain order, that does not pass. */
  lemma NoOutputNamesFirstFailedCheck(req: Request, host: Host, f: Failure)
    ensures Decide(req, host) == NoOutput(f) <==>
              !Passes(f, req, host) && forall g :: Rank(g) < Rank(f) ==> Passes(g, req, host)
  {
    if Decide(req, host) == NoOutput(f) {
      forall g | Rank(g) < Rank(f) ensures Passes(g, req, host) {
      }
    }
    if !Passes(f, req, host) && forall g :: Rank(g) < Rank(f) ==> Passes(g, req, host) {
      FirstFailedCheckIsReported(req, host, f);
    }
  }

  lemma FirstFailedCheckIsReported(req: Request, host: Host, f: Failure)
    requires !Passes(f, req, host)
    requires forall g :: Rank(g) < Rank(f) ==> Passes(g, req, host)
    ensures Decide(req, host) == NoOutput(f)
  {
    if Rank(f) > 0 { assert Passes(RouteMismatch, req, host); }
    if Rank(f) > 1 { assert Passes(NotParticipant, req, host); }
    if Rank(f) > 2 { assert Passes(NoLinkedMessage, req, host); }
    if Rank(f) > 3 { assert Passes(OtherThread, req, host); }
    if Rank(f) > 4 { assert Passes(NotAnAttachment, req, host); }
  }

  /**
    When every check passes the response is streamed: status 200, the file stored for the requested
    attachment, and the six headers in order, the length reading back as the
    file's size, the download name the path's last component, the type the
    stored MIME type.
   */
  lemma StreamedResponse(req: Request, host: Host)
    requires RouteMatches(req) && IsParticipant(req, host) && HasLinkedMessage(req, host)
    requires InRequestedThread(req, host) && IsAttachmentPost(req, host) && FilePresent(req, host)
    ensures var o := Decide(req, host);
            && o.Stream?
            && o.status == 200
            && o.file == host.attachedFile(AttachmentId(req))
            && host.fileExists(o.file)
            && |o.headers| == 6
            && o.headers[0] == Header("Cache-Control", "cache, must-revalidate")
            && o.headers[1] == Header("Pragma", "public")
            && o.headers[2] == Header("Content-Description", "File Transfer")
            && o.headers[3].name == "Content-Length"
            && AbsInt(o.headers[3].value) == host.fileSize(o.file)
            && o.headers[4] == Header("Content-Disposition", "attachment; filename=" + Basename(o.file))
            && '/' !in Basename(o.file)
            && o.headers[5] == Header("Content-Type", host.mimeType(AttachmentId(req)))
  {
    var path := host.attachedFile(AttachmentId(req));
    ChecksPassedStreams(req, host);
    DownloadHeadersInOrder(host.fileSize(path), Basename(path), host.mimeType(AttachmentId(req)));
  }

  /** The six headers, in the order they are sent. */
  lemma DownloadHeadersInOrder(size: nat, fileName: string, mime: string)
    ensures var h := DownloadHeaders(size, fileName, mime);
            && h[0] == Header("Cache-Control", "cache, must-revalidate")
            && h[1] == Header("Pragma", "public")
            && h[2] == Header("Content-Description", "File Transfer")
            && h[3].name == "Content-Length"
            && AbsInt(h[3].value) == size
            && h[4] == Header("Content-Disposition", "attachment; filename=" + fileName)
            && h[5] == Header("Content-Type", mime)
  {
  }

  lemma ChecksPassedStreams(req: Request, host: Host)
    requires RouteMatches(req) && IsParticipant(req, host) && HasLinkedMessage(req, host)
    requires InRequestedThread(req, host) && IsAttachmentPost(req, host) && FilePresent(req, host)
    ensures var path := host.attachedFile(AttachmentId(req));
            Decide(req, host) == Stream(200, DownloadHeaders(host.fileSize(path), Basename(path), host.mimeType(AttachmentId(req))), path)
  {
  }

  // The scenarios the gateway is expected to meet

  /** Someone who is not among the recipients gets nothing, whatever the attachment. */
  lemma OutsiderGetsNothing(req: Request, host: Host)
    requires RouteMatches(req)
    requires host.recipients(ThreadId(req)) == [1, 2] && req.loggedInUserId == 3
    ensures Decide(req, host) == NoOutput(NotParticipant)
  {
  }

  /** A recipient asking for an attachment whose message lives in another thread gets nothing. */
  lemma OtherThreadGetsNothing(req: Request, host: Host)
    requires RouteMatches(req)
    requires host.recipients(ThreadId(req)) == [1, 2] && req.loggedInUserId == 1
    requires HasLinkedMessage(req, host) && !InRequestedThread(req, host)
    ensures Decide(req, host) == NoOutput(OtherThread)
  {
  }

  /** A recipient asking for a correctly linked 1024-byte PDF receives it. */
  lemma ParticipantGetsFile(req: Request, host: Host)
    requires RouteMatches(req)
    requires host.recipients(ThreadId(req)) == [1, 2] && req.loggedInUserId == 2
    requires HasLinkedMessage(req, host) && InRequestedThread(req, host) && IsAttachmentPost(req, host)
    requires FilePresent(req, host)
    requires host.mimeType(AttachmentId(req)) == "application/pdf"
    requires host.fileSize(host.attachedFile(AttachmentId(req))) == 1024
    ensures var o := Decide(req, host);
            && o.Stream? && o.status == 200 && o.file == host.attachedFile(AttachmentId(req))
            && o.headers[3] == Header("Content-Length", "1024")
            && o.headers[5] == Header("Content-Type", "application/pdf")
  {
    var path := host.attachedFile(AttachmentId(req));
    assert IsParticipant(req, host);
    var o := Decide(req, host);
    assert o == Stream(200, DownloadHeaders(1024, Basename(path), "application/pdf"), path);
    PdfHeaders(Basename(path));
  }

  lemma PdfHeaders(fileName: string)
    ensures DownloadHeaders(1024, fileName, "application/pdf")[3] == Header("Content-Length", "1024")
    ensures DownloadHeaders(1024, fileName, "application/pdf")[5] == Header("Content-Type", "application/pdf")
  {
    Render1024();
  }

  lemma Render1024()
    ensures NatToString(1024) == "1024"
  {
    assert NatToString(1) == "1";
    assert NatToString(10) == NatToString(1) + [DigitChar(0)];
    assert NatToString(102) == NatToString(10) + [DigitChar(2)];
    assert NatToString(1024) == NatToString(102) + [DigitChar(4)];
  }

  /** The same request with the file gone from disk gets nothing. */
  lemma MissingFileGetsNothing(req: Request, host: Host)
    requires RouteMatches(req)
    requires IsParticipant(req, host) && HasLinkedMessage(req, host) && InRequestedThread(req, host)
    requires IsAttachmentPost(req, host) && !FilePresent(req, host)
    ensures Decide(req, host) == NoOutput(FileMissing)
  {
  }
}

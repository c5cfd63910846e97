// orchestrator/src/server/services/post-application/ingestion/gmail-sync.ts:
// reading Gmail credentials and headers, turning message parts into text,
// and the counters of one sync over a list of messages.
module GmailSync {
  import opened Wrappers
  import opened Text
  import opened Seqs
  import opened Json
  import opened JsNumber
  import opened StringUtils
  import opened Relevance

  const DEFAULT_SEARCH_DAYS := 90
  const DEFAULT_MAX_MESSAGES := 100
  const TOKEN_REFRESH_MARGIN_MS := 60000

  // ---------------------------------------------------------------- credentials

  /** `asString`: a string that is not blank after trimming, trimmed; None otherwise. */
  function AsString(value: Json): Option<string>
  {
    if value.Str? && Trim(value.s) != "" then Some(Trim(value.s)) else None
  }

  /**
    * A present result is the non-blank trimmed string; None means a
    * non-string or a blank one; and a result read back is unchanged.
    */
  lemma AsStringSpec(value: Json)
    ensures AsString(value).Some? <==> value.Str? && Trim(value.s) != ""
    ensures AsString(value).Some? ==>
      var s := AsString(value).value;
      s != "" && IsTrimmedBy(s, Js) && AsString(Str(s)) == Some(s)
  {
    if value.Str? {
      TrimByTrimmed(value.s, Js);
      TrimIdempotent(value.s);
    }
  }

  datatype GmailCredentials = GmailCredentials(
    refreshToken: string,
    accessToken: Option<string>,
    expiryDate: Option<real>,
    scope: Option<string>,
    tokenType: Option<string>,
    email: Option<string>)

  /** `parseGmailCredentials`; a JSON number is always finite here. */
  function ParseGmailCredentials(credentials: Json): Option<GmailCredentials>
  {
    if credentials.Null? || credentials.Undefined? then None
    else match AsString(Field(credentials, "refreshToken"))
      case None => None
      case Some(refreshToken) =>
        var expiry := Field(credentials, "expiryDate");
        Some(GmailCredentials(
          refreshToken,
          AsString(Field(credentials, "accessToken")),
          if expiry.Num? then Some(expiry.n) else None,
          AsString(Field(credentials, "scope")),
          AsString(Field(credentials, "tokenType")),
          AsString(Field(credentials, "email"))))
  }

  /**
    * Credentials exist exactly when there is a refresh token that is not
    * blank; the expiry date is kept only when it is a number.
    */
  lemma ParseGmailCredentialsSpec(credentials: Json)
    ensures ParseGmailCredentials(credentials).Some? <==>
      !credentials.Null? && !credentials.Undefined? && AsString(Field(credentials, "refreshToken")).Some?
    ensures ParseGmailCredentials(credentials).Some? ==>
      var c := ParseGmailCredentials(credentials).value;
      c.refreshToken != "" && IsTrimmedBy(c.refreshToken, Js) &&
      (c.expiryDate.Some? <==> Field(credentials, "expiryDate").Num?)
  {
    AsStringSpec(Field(credentials, "refreshToken"));
  }

  /** `resolveGmailAccessToken` keeps the stored token while it has more than a minute left. */
  predicate TokenStillValid(credentials: GmailCredentials, now: real)
  {
    credentials.accessToken.Some? && credentials.expiryDate.Some? && credentials.expiryDate.value != 0.0 &&
    credentials.expiryDate.value > now + TOKEN_REFRESH_MARGIN_MS as real
  }

  /** The search window and message cap of a sync: the given values or the defaults, at least 1. */
  function SyncLimit(requested: Option<int>, default: int): (r: int)
    ensures r >= 1
    ensures requested.Some? && requested.value >= 1 ==> r == requested.value
    ensures requested.None? ==> r == Max(1, default)
  {
    Max(1, requested.GetOr(default))
  }

  // ---------------------------------------------------------------- headers

  datatype Header = Header(name: Option<string>, value: Option<string>)

  predicate HeaderNamed(header: Header, name: string)
  {
    Lower(header.name.GetOr("")) == Lower(name)
  }

  /** `headerValue`: the value of the first header with the name, ignoring case; "" when none. */
  function HeaderValue(headers: seq<Header>, name: string): string
  {
    if headers == [] then ""
    else if HeaderNamed(headers[0], name) then headers[0].value.GetOr("")
    else HeaderValue(headers[1..], name)
  }

  /** The value comes from the first header with the name, or is "" when no header has it. */
  lemma {:induction false} HeaderValueSpec(headers: seq<Header>, name: string)
    ensures (forall i :: 0 <= i < |headers| ==> !HeaderNamed(headers[i], name)) ==> HeaderValue(headers, name) == ""
    ensures forall i :: (0 <= i < |headers| && HeaderNamed(headers[i], name) &&
      (forall j :: 0 <= j < i ==> !HeaderNamed(headers[j], name))) ==>
      HeaderValue(headers, name) == headers[i].value.GetOr("")
  {
    if headers != [] {
      HeaderValueSpec(headers[1..], name);
      forall i | 0 <= i < |headers| && HeaderNamed(headers[i], name) &&
        (forall j :: 0 <= j < i ==> !HeaderNamed(headers[j], name))
        ensures HeaderValue(headers, name) == headers[i].value.GetOr("")
      {
        if i > 0 {
          assert headers[1..][i - 1] == headers[i];
          forall j | 0 <= j < i - 1 ensures !HeaderNamed(headers[1..][j], name) {
            assert headers[1..][j] == headers[j + 1];
          }
        }
      }
      if forall i :: 0 <= i < |headers| ==> !HeaderNamed(headers[i], name) {
        forall j | 0 <= j < |headers[1..]| ensures !HeaderNamed(headers[1..][j], name) {
          assert headers[1..][j] == headers[j + 1];
        }
      }
    }
  }

  // ---------------------------------------------------------------- the From header

  /** The characters the regular-expression `.` does not match. */
  predicate IsLineTerminator(c: char)
  {
    c == '\n' || c == '\r' || c == '\U{2028}' || c == '\U{2029}'
  }

  predicate NoLineTerminator(s: string)
  {
    forall i :: 0 <= i < |s| ==> !IsLineTerminator(s[i])
  }

  /**
    * `/^(.*?)<([^>]+)>$/` tried with the lazy first group ending at `i`:
    * the first `i` from which `<`, at least one character other than `>`,
    * and a final `>` follow.
    */
  function AngleFrom(s: string, i: nat): Option<(string, string)>
    requires i <= |s|
    decreases |s| - i
  {
    if |s| < 3 || s[|s| - 1] != '>' || i + 2 >= |s| then None
    else if s[i] == '<' && '>' !in s[i + 1..|s| - 1] then Some((s[..i], s[i + 1..|s| - 1]))
    else if IsLineTerminator(s[i]) then None
    else AngleFrom(s, i + 1)
  }

  /** The groups of `/^(.*?)<([^>]+)>$/` on `s`, when it matches. */
  function AngleMatch(s: string): Option<(string, string)>
  {
    AngleFrom(s, 0)
  }

  datatype FromParts = FromParts(fromAddress: string, fromDomain: Option<string>, senderName: Option<string>)

  /** The text after the first `@` of an address, when that `@` is not its first character. */
  function DomainOf(address: string): Option<string>
  {
    var at := IndexOf(address, '@');
    if at > 0 then Some(Lower(address[at + 1..])) else None
  }

  /** `parseFromHeader`. */
  function ParseFromHeader(fromHeader: string): FromParts
  {
    var m := AngleMatch(fromHeader);
    var senderName := if m.Some? && Trim(m.value.0) != "" then Some(Trim(m.value.0)) else None;
    var fromAddress := Lower(Trim(if m.Some? then m.value.1 else fromHeader));
    FromParts(fromAddress, DomainOf(fromAddress), senderName)
  }

  lemma {:induction false} AngleFromNamed(name: string, address: string, i: nat)
    requires '<' !in name && NoLineTerminator(name) && address != [] && '>' !in address
    requires i <= |name|
    ensures AngleFrom(name + "<" + address + ">", i) == Some((name, address))
    decreases |name| - i
  {
    var s := name + "<" + address + ">";
    assert s[|s| - 1] == '>';
    if i == |name| {
      assert s[i] == '<';
      assert s[..i] == name;
      assert s[i + 1..|s| - 1] == address;
    } else {
      assert s[i] == name[i];
      assert name[i] in name;
      AngleFromNamed(name, address, i + 1);
    }
  }

  /**
    * "Name <address>": the sender name is the trimmed name, or None when it
    * is blank, and the address is trimmed and lower-cased.
    */
  lemma ParseFromHeaderNamed(name: string, address: string)
    requires '<' !in name && NoLineTerminator(name) && address != [] && '>' !in address
    ensures var p := ParseFromHeader(name + "<" + address + ">");
      p.senderName == (if Trim(name) == "" then None else Some(Trim(name))) &&
      p.fromAddress == Lower(Trim(address))
  {
    AngleFromNamed(name, address, 0);
  }

  lemma {:induction false} AngleFromNoOpen(s: string, i: nat)
    requires '<' !in s && i <= |s|
    ensures AngleFrom(s, i).None?
    decreases |s| - i
  {
    if |s| >= 3 && s[|s| - 1] == '>' && i + 2 < |s| {
      assert s[i] in s;
      if !IsLineTerminator(s[i]) {
        AngleFromNoOpen(s, i + 1);
      }
    }
  }

  /** A bare address has no sender name and is itself trimmed and lower-cased. */
  lemma ParseFromHeaderBare(fromHeader: string)
    requires '<' !in fromHeader
    ensures ParseFromHeader(fromHeader).senderName.None?
    ensures ParseFromHeader(fromHeader).fromAddress == Lower(Trim(fromHeader))
  {
    AngleFromNoOpen(fromHeader, 0);
  }

  /** There is a domain exactly when the address has an `@` after its first character; it is what follows that first `@`. */
  lemma DomainOfSpec(address: string)
    requires IsLower(address)
    ensures DomainOf(address).Some? <==> IndexOf(address, '@') > 0
    ensures DomainOf(address).Some? ==>
      var at := IndexOf(address, '@');
      '@' !in address[..at] && address == address[..at] + "@" + DomainOf(address).value
  {
    var at := IndexOf(address, '@');
    if at > 0 {
      assert IsLower(address[at + 1..]) by {
        forall c | c in address[at + 1..] ensures LowerChar(c) == c {
          assert c in address;
        }
      }
      LowerOfLower(address[at + 1..]);
      assert address == address[..at] + "@" + address[at + 1..];
    }
  }

  /** The address is lower-case, and the domain is the text after its first `@` when that is not at the start. */
  lemma FromDomainSpec(fromHeader: string)
    ensures var p := ParseFromHeader(fromHeader);
      IsLower(p.fromAddress) && (p.fromDomain.Some? <==> IndexOf(p.fromAddress, '@') > 0) &&
      (p.fromDomain.Some? ==>
        var at := IndexOf(p.fromAddress, '@');
        '@' !in p.fromAddress[..at] && p.fromAddress == p.fromAddress[..at] + "@" + p.fromDomain.value)
  {
    var m := AngleMatch(fromHeader);
    var raw := Trim(if m.Some? then m.value.1 else fromHeader);
    LowerIsLower(raw);
    DomainOfSpec(Lower(raw));
  }

  // ---------------------------------------------------------------- base64url

  function UrlToStandard(c: char): char
  {
    if c == '-' then '+' else if c == '_' then '/' else c
  }

  /** `value.replace(/-/g, "+").replace(/_/g, "/")`. */
  function StandardAlphabet(value: string): (r: string)
    ensures |r| == |value|
    ensures forall i :: 0 <= i < |r| ==> r[i] == UrlToStandard(value[i])
  {
    seq(|value|, i requires 0 <= i < |value| => UrlToStandard(value[i]))
  }

  function Repeat(c: char, n: nat): (r: string)
    ensures |r| == n && forall i :: 0 <= i < n ==> r[i] == c
  {
    seq(n, _ => c)
  }

  /** The padding `decodeBase64Url` appends: `"=".repeat((4 - length % 4) % 4)`. */
  function PadBase64(s: string): string
  {
    s + Repeat('=', (4 - |s| % 4) % 4)
  }

  /**
    * Padding appends fewer than four `=`, so exactly enough to reach a
    * multiple of four, and nothing to a length that already is one.
    */
  lemma PadBase64Spec(s: string)
    ensures var p := PadBase64(s);
      |p| % 4 == 0 && s <= p && |p| - |s| < 4 &&
      (forall i :: |s| <= i < |p| ==> p[i] == '=') &&
      (|s| % 4 == 0 ==> p == s)
  {
  }

  /** The standard alphabet has neither `-` nor `_`, and leaves every other character alone. */
  lemma StandardAlphabetSpec(value: string)
    ensures '-' !in StandardAlphabet(value) && '_' !in StandardAlphabet(value)
    ensures '-' !in value && '_' !in value ==> StandardAlphabet(value) == value
  {
  }

  /** `decodeBase64Url`; `decode` stands for the base64 to UTF-8 decoding of a padded string. */
  function DecodeBase64Url(value: string, decode: string -> string): string
  {
    decode(PadBase64(StandardAlphabet(value)))
  }

  // ---------------------------------------------------------------- html

  /** `s` starts with the lower-case `p`, ignoring the case of ASCII letters. */
  predicate StartsWithCi(s: string, p: string)
  {
    |p| <= |s| && Lower(s[..|p|]) == p
  }

  /** The first offset at which `s` starts with `p`, ignoring case, or -1. */
  function FindCi(s: string, p: string): (r: int)
    ensures -1 <= r <= |s|
    ensures r >= 0 ==> StartsWithCi(s[r..], p)
    ensures forall k :: 0 <= k < (if r < 0 then |s| + 1 else r) ==> !StartsWithCi(s[k..], p)
    decreases |s|
  {
    if StartsWithCi(s, p) then 0
    else if s == [] then -1
    else
      var k := FindCi(s[1..], p);
      assert forall j :: 0 < j <= |s| ==> s[j..] == s[1..][j - 1..];
      if k < 0 then -1 else k + 1
  }

  /**
    * `s.replace(/<open[\s\S]*?<\/close>/gi, " ")` for an element written
    * `open`..`close`: each block from an opening tag to the first closing tag
    * after it becomes a space; an opening tag with no closing tag after it
    * ends the replacement.
    */
  function RemoveBlocks(s: string, open: string, close: string): string
    requires |open| > 0
    decreases |s|
  {
    var i := FindCi(s, open);
    if i < 0 || i + |open| > |s| then s
    else
      var j := FindCi(s[i + |open|..], close);
      if j < 0 || i + |open| + j + |close| > |s| then s
      else s[..i] + " " + RemoveBlocks(s[i + |open| + j + |close|..], open, close)
  }

  /** Text without `<` has no block to remove. */
  lemma RemoveBlocksNoOpen(s: string, open: string, close: string)
    requires |open| > 0 && open[0] == '<' && '<' !in s
    ensures RemoveBlocks(s, open, close) == s
  {
  }

  /**
    * `s.replace(/<[^>]+>/g, " ")`: a `<` followed, after at least one other
    * character, by a `>` starts a tag running to that first `>`, and the tag
    * becomes a space; `<>` and a `<` with no `>` after it stay.
    */
  function ReplaceTagsStrict(s: string): string
    decreases |s|
  {
    if s == [] then []
    else if s[0] == '<' && IndexOf(s[1..], '>') > 0 then
      " " + ReplaceTagsStrict(s[1..][IndexOf(s[1..], '>') + 1..])
    else [s[0]] + ReplaceTagsStrict(s[1..])
  }

  lemma {:induction false} ReplaceTagsStrictNoOpen(s: string)
    requires '<' !in s
    ensures ReplaceTagsStrict(s) == s
    decreases |s|
  {
    if s != [] {
      ReplaceTagsStrictNoOpen(s[1..]);
    }
  }

  /** `htmlToText`: style and script blocks and tags become spaces, whitespace is collapsed and trimmed. */
  function HtmlToText(html: string): string
  {
    NormalizeWhitespace(ReplaceTagsStrict(RemoveBlocks(RemoveBlocks(html, "<style", "</style>"), "<script", "</script>")))
  }

  /** The text has no leading or trailing space and no whitespace other than single spaces. */
  lemma HtmlToTextShape(html: string)
    ensures IsNormalized(HtmlToText(html))
  {
    NormalizeWhitespaceShape(ReplaceTagsStrict(RemoveBlocks(RemoveBlocks(html, "<style", "</style>"), "<script", "</script>")));
  }

  /** Plain text without markup and already in normal form comes through unchanged. */
  lemma HtmlToTextPlain(text: string)
    requires '<' !in text && IsNormalized(text)
    ensures HtmlToText(text) == text
  {
    RemoveBlocksNoOpen(text, "<style", "</style>");
    RemoveBlocksNoOpen(text, "<script", "</script>");
    ReplaceTagsStrictNoOpen(text);
    NormalizeWhitespaceFixed(text);
  }

  // ---------------------------------------------------------------- message bodies

  /** A MIME part of a Gmail message, with its base64url data and its child parts. */
  datatype Part = Part(mimeType: Option<string>, data: Option<string>, parts: seq<Part>)

  /** What one part contributes before its children: html converted to text, any other "text/" type as is. */
  function OwnChunk(part: Part, decode: string -> string): seq<string>
  {
    var mime := Lower(part.mimeType.GetOr(""));
    if part.data.None? || part.data.value == "" then []
    else
      var decoded := DecodeBase64Url(part.data.value, decode);
      if Contains(mime, "text/html") then [HtmlToText(decoded)]
      else if "text/" <= mime then [decoded]
      else []
  }

  /** The chunks of a part tree, in pre-order. */
  function Chunks(part: Part, decode: string -> string): seq<string>
    decreases part, 1
  {
    OwnChunk(part, decode) + ChunksOfAll(part.parts, decode)
  }

  function ChunksOfAll(parts: seq<Part>, decode: string -> string): seq<string>
    decreases parts, 0
  {
    if parts == [] then []
    else ChunksOfAll(parts[..|parts| - 1], decode) + Chunks(parts[|parts| - 1], decode)
  }

  lemma ChunksOfAllSnoc(parts: seq<Part>, k: nat, decode: string -> string)
    requires k < |parts|
    ensures ChunksOfAll(parts[..k + 1], decode) == ChunksOfAll(parts[..k], decode) + Chunks(parts[k], decode)
  {
    assert parts[..k + 1][..k] == parts[..k];
  }

  /** The walk of `extractBodyText`: push this part's chunk, then walk each child. */
  method Walk(part: Part, decode: string -> string, chunks: seq<string>) returns (out: seq<string>)
    ensures out == chunks + Chunks(part, decode)
    decreases part
  {
    var own := OwnChunk(part, decode);
    out := chunks + own;
    for k := 0 to |part.parts|
      invariant out == chunks + own + ChunksOfAll(part.parts[..k], decode)
    {
      var child := part.parts[k];
      assert child in part.parts;
      var before := out;
      out := Walk(child, decode, out);
      ChunksOfAllSnoc(part.parts, k, decode);
      AppendAssoc(chunks + own, ChunksOfAll(part.parts[..k], decode), Chunks(child, decode));
    }
    assert part.parts[..|part.parts|] == part.parts;
    AppendAssoc(chunks, own, ChunksOfAll(part.parts, decode));
  }

  /** What `extractBodyText` returns: the non-empty chunks joined by blank lines, trimmed. */
  function BodyText(payload: Option<Part>, decode: string -> string): string
  {
    if payload.None? then ""
    else Trim(Join(Filter(Chunks(payload.value, decode), (c: string) => c != ""), "\n\n"))
  }

  /** `extractBodyText`. */
  method ExtractBodyText(payload: Option<Part>, decode: string -> string) returns (text: string)
    ensures text == BodyText(payload, decode)
  {
    if payload.None? {
      return "";
    }
    var chunks := Walk(payload.value, decode, []);
    assert chunks == Chunks(payload.value, decode);
    text := Trim(Join(Filter(chunks, (c: string) => c != ""), "\n\n"));
  }

  /** No part of the tree is a "text/" part with data. */
  predicate NoTextPart(part: Part)
    decreases part
  {
    (part.data.None? || part.data.value == "" || !("text/" <= Lower(part.mimeType.GetOr("")) || Contains(Lower(part.mimeType.GetOr("")), "text/html"))) &&
    forall i :: 0 <= i < |part.parts| ==> NoTextPart(part.parts[i])
  }

  lemma {:induction false} ChunksNoText(part: Part, decode: string -> string)
    requires NoTextPart(part)
    ensures Chunks(part, decode) == []
    decreases part, 1
  {
    ChunksOfAllNoText(part.parts, decode);
  }

  lemma {:induction false} ChunksOfAllNoText(parts: seq<Part>, decode: string -> string)
    requires forall i :: 0 <= i < |parts| ==> NoTextPart(parts[i])
    ensures ChunksOfAll(parts, decode) == []
    decreases parts, 0
  {
    if parts != [] {
      ChunksOfAllNoText(parts[..|parts| - 1], decode);
      ChunksNoText(parts[|parts| - 1], decode);
    }
  }

  /** A message without a payload, or with no "text/" part carrying data, has an empty body. */
  lemma BodyTextEmpty(payload: Option<Part>, decode: string -> string)
    requires payload.Some? ==> NoTextPart(payload.value)
    ensures BodyText(payload, decode) == ""
  {
    if payload.Some? {
      ChunksNoText(payload.value, decode);
    }
  }

  /** A single non-html "text/" part, such as text/plain, gives its decoded data, trimmed. */
  lemma BodyTextSingle(mime: string, data: string, decode: string -> string)
    requires "text/" <= Lower(mime) && !Contains(Lower(mime), "text/html")
    requires data != "" && DecodeBase64Url(data, decode) != ""
    ensures BodyText(Some(Part(Some(mime), Some(data), [])), decode) == Trim(DecodeBase64Url(data, decode))
  {
    var part := Part(Some(mime), Some(data), []);
    var decoded := DecodeBase64Url(data, decode);
    assert OwnChunk(part, decode) == [decoded];
    assert Chunks(part, decode) == [decoded];
    assert [decoded][1..] == [];
  }

  // ---------------------------------------------------------------- classification by the LLM

  /** The fields of the LLM's reply that the sync reads; `confidence` as parsed. */
  datatype LlmReply = LlmReply(relevanceScore: real, classificationLabel: string, confidence: Json,
                               companyName: Json, jobTitle: Json, reason: string)

  datatype LlmClassification = LlmClassification(relevanceScore: int, classificationLabel: string, confidence: real,
                                                 companyName: Option<string>, jobTitle: Option<string>, reason: string)

  function RClamp(x: real, lo: real, hi: real): real
  {
    if x < lo then lo else if x > hi then hi else x
  }

  /** What `classifyWithLlm` returns for a successful call. */
  function ClassifyResult(reply: LlmReply): LlmClassification
  {
    LlmClassification(
      Max(0, Min(100, Round(reply.relevanceScore))),
      Trim(reply.classificationLabel),
      if reply.confidence.Num? then RClamp(reply.confidence.n, 0.0, 1.0) else 0.0,
      AsString(reply.companyName),
      AsString(reply.jobTitle),
      Trim(reply.reason))
  }

  /** The LLM path: relevant when the clamped score reaches 60 and the label is not "false positive". */
  predicate IsRelevantByLlm(c: LlmClassification)
  {
    c.relevanceScore >= MIN_THRESHOLD && Lower(c.classificationLabel) != "false positive"
  }

  /**
    * The score is clamped to [0, 100] and the confidence to [0, 1] (0 for a
    * non-number); a relevant reply has a score of at least 60.
    */
  lemma ClassifyResultSpec(reply: LlmReply)
    ensures var c := ClassifyResult(reply);
      0 <= c.relevanceScore <= 100 && 0.0 <= c.confidence <= 1.0 &&
      (!reply.confidence.Num? ==> c.confidence == 0.0) &&
      (IsRelevantByLlm(c) ==> c.relevanceScore >= 60) &&
      (Round(reply.relevanceScore) < 60 ==> !IsRelevantByLlm(c))
  {
  }

  /** A reply labelled "False positive", in any case, is never relevant. */
  lemma FalsePositiveNeverRelevant(reply: LlmReply)
    requires Lower(Trim(reply.classificationLabel)) == "false positive"
    ensures !IsRelevantByLlm(ClassifyResult(reply))
  {
  }

  // ---------------------------------------------------------------- the sync loop

  /**
    * One listed message as the sync sees it: its headers' text, the LLM's
    * reply (None when the call fails), whether job mapping matched it, and
    * whether a storage or network step threw.
    */
  datatype MessageEvent = MessageEvent(
    from: string,
    subject: string,
    snippet: string,
    llm: Option<LlmReply>,
    mapped: bool,
    throws: bool)

  datatype Outcome = NotRelevant | KeywordRelevant | LlmClassified(relevant: bool) | Errored

  /** Which branch of the loop body a message takes. */
  function OutcomeOf(e: MessageEvent): Outcome
  {
    if e.throws then Errored
    else
      var decision := ComputePolicyDecision(KeywordRelevanceScore(e.from, e.subject, e.snippet));
      if !decision.shouldUseLlm && !decision.isRelevant then NotRelevant
      else if !decision.shouldUseLlm then KeywordRelevant
      else if e.llm.None? then Errored
      else LlmClassified(IsRelevantByLlm(ClassifyResult(e.llm.value)))
  }

  datatype SyncSummary = SyncSummary(discovered: nat, relevant: nat, classified: nat, matched: nat, errored: nat)
  {
    /** matched ≤ relevant ≤ classified and classified + errored ≤ discovered. */
    predicate Consistent()
    {
      matched <= relevant <= classified && classified + errored <= discovered
    }
  }

  /** The counters after one more message with the given outcome. */
  function Step(s: SyncSummary, outcome: Outcome, mapped: bool): SyncSummary
  {
    var d := s.(discovered := s.discovered + 1);
    match outcome
      case NotRelevant => d
      case KeywordRelevant =>
        d.(relevant := s.relevant + 1, classified := s.classified + 1, matched := s.matched + if mapped then 1 else 0)
      case LlmClassified(relevant) =>
        if relevant then
          d.(relevant := s.relevant + 1, classified := s.classified + 1, matched := s.matched + if mapped then 1 else 0)
        else d.(classified := s.classified + 1)
      case Errored => d.(errored := s.errored + 1)
  }

  /** The counters after one more message. */
  function Tally(s: SyncSummary, e: MessageEvent): SyncSummary
  {
    Step(s, OutcomeOf(e), e.mapped)
  }

  /** The counters after a sync over `events`, in order. */
  function SummaryOf(events: seq<MessageEvent>): SyncSummary
  {
    if events == [] then SyncSummary(0, 0, 0, 0, 0)
    else Tally(SummaryOf(events[..|events| - 1]), events[|events| - 1])
  }

  /** Each step keeps the counters consistent. */
  lemma StepConsistent(s: SyncSummary, outcome: Outcome, mapped: bool)
    requires s.Consistent()
    ensures Step(s, outcome, mapped).Consistent()
    ensures Step(s, outcome, mapped).discovered == s.discovered + 1
  {
  }

  lemma SummarySnoc(events: seq<MessageEvent>, k: nat)
    requires k < |events|
    ensures SummaryOf(events[..k + 1]) == Step(SummaryOf(events[..k]), OutcomeOf(events[k]), events[k].mapped)
  {
    assert events[..k + 1][..k] == events[..k];
  }

  /** The loop body's counter updates for a message with the given outcome. */
  method Bump(discovered: nat, relevant: nat, classified: nat, matched: nat, errored: nat, outcome: Outcome, mapped: bool)
    returns (discovered': nat, relevant': nat, classified': nat, matched': nat, errored': nat)
    ensures SyncSummary(discovered', relevant', classified', matched', errored') ==
      Step(SyncSummary(discovered, relevant, classified, matched, errored), outcome, mapped)
  {
    discovered', relevant', classified', matched', errored' := discovered + 1, relevant, classified, matched, errored;
    match outcome {
      case NotRelevant =>
      case KeywordRelevant =>
        if mapped {
          matched' := matched' + 1;
        }
        relevant' := relevant' + 1;
        classified' := classified' + 1;
      case LlmClassified(isRelevant) =>
        if isRelevant {
          if mapped {
            matched' := matched' + 1;
          }
          relevant' := relevant' + 1;
        }
        classified' := classified' + 1;
      case Errored =>
        errored' := errored' + 1;
    }
  }

  /** The loop of `runGmailIngestionSync`: each message bumps the counters of its branch. */
  method SyncMessages(events: seq<MessageEvent>) returns (summary: SyncSummary)
    ensures summary == SummaryOf(events)
    ensures summary.Consistent() && summary.discovered == |events|
  {
    var discovered, relevant, classified, matched, errored := 0, 0, 0, 0, 0;
    for k := 0 to |events|
      invariant SyncSummary(discovered, relevant, classified, matched, errored) == SummaryOf(events[..k])
      invariant SummaryOf(events[..k]).Consistent() && discovered == k
    {
      var e := events[k];
      var outcome := OutcomeOf(e);
      SummarySnoc(events, k);
      StepConsistent(SummaryOf(events[..k]), outcome, e.mapped);
      discovered, relevant, classified, matched, errored :=
        Bump(discovered, relevant, classified, matched, errored, outcome, e.mapped);
    }
    assert events[..|events|] == events;
    summary := SyncSummary(discovered, relevant, classified, matched, errored);
  }

  function Add(a: SyncSummary, b: SyncSummary): SyncSummary
  {
    SyncSummary(a.discovered + b.discovered, a.relevant + b.relevant, a.classified + b.classified,
                a.matched + b.matched, a.errored + b.errored)
  }

  lemma StepAdd(x: SyncSummary, y: SyncSummary, outcome: Outcome, mapped: bool)
    ensures Step(Add(x, y), outcome, mapped) == Add(x, Step(y, outcome, mapped))
  {
  }

  /**
    * The counters of a sync are the sums over its parts: a message that
    * errs adds to `errored` alone and the messages after it are counted as
    * if it had not happened.
    */
  lemma {:induction false} SummaryAppend(a: seq<MessageEvent>, b: seq<MessageEvent>)
    ensures SummaryOf(a + b) == Add(SummaryOf(a), SummaryOf(b))
    decreases |b|
  {
    if b == [] {
      assert a + b == a;
    } else {
      var b' := b[..|b| - 1];
      var e := b[|b| - 1];
      assert (a + b)[..|a + b| - 1] == a + b';
      assert (a + b)[|a + b| - 1] == e;
      SummaryAppend(a, b');
      StepAdd(SummaryOf(a), SummaryOf(b'), OutcomeOf(e), e.mapped);
    }
  }

  /** A message that throws, or whose LLM call fails, only counts as discovered and errored. */
  lemma ErroredMessage(e: MessageEvent)
    requires OutcomeOf(e) == Errored
    ensures SummaryOf([e]) == SyncSummary(1, 0, 0, 0, 1)
  {
    assert [e][..0] == [];
  }

  /** Keyword scores under 60 are stored as not relevant without consulting the LLM. */
  lemma LowKeywordScoreSkipped(e: MessageEvent)
    requires !e.throws && KeywordRelevanceScore(e.from, e.subject, e.snippet) < 60
    ensures OutcomeOf(e) == NotRelevant
  {
  }

  /** Keyword scores of 95 and up are relevant without consulting the LLM, whatever it would say. */
  lemma HighKeywordScoreRelevant(e: MessageEvent)
    requires !e.throws && KeywordRelevanceScore(e.from, e.subject, e.snippet) >= 95
    ensures OutcomeOf(e) == KeywordRelevant
    ensures OutcomeOf(e.(llm := None)) == KeywordRelevant
  {
  }
}

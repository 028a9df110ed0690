/** Creating a quick session and retrying the create. */
module QuickSession {
  import opened Results
  import opened Text
  import opened Thread
  import opened ThreadFraming
  import opened BodyForm

  datatype Session = Session(id: string, agentId: string, createdBy: string, thread: string)

  datatype CreateOutcome =
    | Created(session: Session)
    | Existing(session: Session)
    | Collision
    | Rejected

  const EPOCH: string := "19700101T000000Z"

  /** `canonical_message_body`: format, parse, take the first message's body. */
  function CanonicalBody(author: string, body: string): Option<string> {
    var parsed := Parse(Format(Message(1, 0, author, EPOCH, body)));
    if parsed.Ok? && parsed.value != [] && parsed.value[0].Message? then Some(parsed.value[0].body) else None
  }

  lemma CanonicalIsNormal(author: string, body: string)
    requires ValidAuthor(author)
    ensures CanonicalBody(author, body) == if HasFirstLine(body) then Some(NormalBody(body)) else None
  {
    hide Parse, Format, HasFirstLine, NormalBody, IsTimestamp, ValidAuthor, Formattable, Visible;
    var e := Message(1, 0, author, EPOCH, body);
    EpochIsTimestamp();
    FirstFormattable(e);
    VisibleBody(e);
    EmptyFile();
    assert "" + Format(e) == Format(e);
    AppendFrames("", e);
    if !HasFirstLine(body) {
      InvisibleAlone(e);
    }
  }

  lemma EpochIsTimestamp()
    ensures IsTimestamp(EPOCH)
  {
  }

  lemma VisibleBody(e: Entry)
    requires e.Message?
    ensures Visible(e) <==> HasFirstLine(e.body)
  {
    hide HasFirstLine;
  }

  lemma InvisibleAlone(e: Entry)
    requires Formattable(e) && !Visible(e)
    ensures Parse(Format(e)).Err? || Parse(Format(e)).value == []
  {
    InvisibleIsLost(e, 0, []);
    hide Format, FileLines, ParseLines, Formattable, Visible;
  }

  /** The create handler past its permission checks: recognise, refuse, or store. */
  function Create(stored: Option<Session>, id: string, agentId: string, author: string, body: string, now: string): CreateOutcome {
    match CanonicalBody(author, body)
    case None => Rejected
    case Some(first) =>
      match stored
      case None =>
        // `validate_append` parses the text it is about to store
        var thread := Format(Message(1, 0, author, now, first));
        if Parse(thread).Ok? then Created(Session(id, agentId, author, thread)) else Rejected
      case Some(s) =>
        match Parse(s.thread)
        case Err(_) => Rejected
        case Ok(entries) =>
          if s.id == id && s.agentId == agentId && s.createdBy == author && FirstMatches(entries, author, first)
          then Existing(s) else Collision
  }

  predicate FirstMatches(entries: seq<Entry>, author: string, first: string) {
    && entries != []
    && entries[0].Message?
    && entries[0].line == 1
    && entries[0].pointTo == 0
    && entries[0].author == author
    && entries[0].body == first
  }

  /** The session after its creation and any later messages: transitions leave id, agent and
      creator alone and only ever append to the thread. */
  function Grown(s: Session, first: Entry, later: seq<Entry>): Session {
    s.(thread := FormatAll([first] + later))
  }

  /** After a create and any later messages, a second create under the same id is recognised exactly
      when agent and author are the same and its message reads as the stored one does; any other
      readable one collides. */
  lemma SecondCreate(id: string, agentId: string, author: string, body: string, now: string, later: seq<Entry>,
                     agentId2: string, author2: string, body2: string, now2: string)
    requires ValidAuthor(author) && IsTimestamp(now) && ValidAuthor(author2) && HasFirstLine(body2)
    requires forall i | 0 <= i < |later| :: Formattable(later[i]) && Visible(later[i])
    requires Create(None, id, agentId, author, body, now).Created?
    ensures var s := Create(None, id, agentId, author, body, now).session;
      var first := Message(1, 0, author, now, NormalBody(body));
      var grown := Grown(s, first, later);
      && s.thread == Format(first)
      && Create(Some(grown), id, agentId2, author2, body2, now2)
         == if agentId2 == agentId && author2 == author && NormalBody(body2) == NormalBody(NormalBody(body))
            then Existing(grown) else Collision
  {
    var first := Message(1, 0, author, now, NormalBody(body));
    hide Parse, Format, FormatAll, HasFirstLine, NormalBody, CanonicalBody, IsTimestamp, ValidAuthor;
    hide FirstMatches, Formattable, Visible;
    CanonicalIsNormal(author, body);
    CanonicalIsNormal(author2, body2);
    FirstFormattable(first);
    CreatedStores(id, agentId, author, body, now, NormalBody(body));
    StoredIsVisible(first);
    StoredReads(first, later);
    FirstMatchesNormal(first, NormalAll([first] + later), author2, NormalBody(body2));
    var s := Session(id, agentId, author, Format(first));
    RetryDecides(Grown(s, first, later), NormalAll([first] + later), agentId2, author2, body2, now2, NormalBody(body2));
    hide Create;
  }

  lemma CreatedStores(id: string, agentId: string, author: string, body: string, now: string, first: string)
    requires CanonicalBody(author, body) == Some(first) && Create(None, id, agentId, author, body, now).Created?
    ensures var thread := Format(Message(1, 0, author, now, first));
      Parse(thread).Ok? && Create(None, id, agentId, author, body, now).session == Session(id, agentId, author, thread)
  {
    hide CanonicalBody, Parse, Format;
  }

  /** A first create stores one message, line 1 with no parent, under the given names, exactly when the
      message and its normal form both have a first line. */
  lemma FirstCreate(id: string, agentId: string, author: string, body: string, now: string)
    requires ValidAuthor(author) && IsTimestamp(now)
    ensures Create(None, id, agentId, author, body, now) ==
      if HasFirstLine(body) && HasFirstLine(NormalBody(body))
      then Created(Session(id, agentId, author, Format(Message(1, 0, author, now, NormalBody(body)))))
      else Rejected
  {
    var first := Message(1, 0, author, now, NormalBody(body));
    hide Parse, Format, HasFirstLine, NormalBody, CanonicalBody, IsTimestamp, ValidAuthor, Formattable, Visible;
    CanonicalIsNormal(author, body);
    FirstFormattable(first);
    VisibleBody(first);
    StoredExactly(first);
  }

  /** A message alone in its file can be read exactly when it has a first line. */
  lemma StoredExactly(e: Entry)
    requires Formattable(e)
    ensures Parse(Format(e)).Ok? <==> Visible(e)
  {
    hide Parse, Format, Formattable, Visible;
    if Visible(e) {
      EmptyFile();
      assert "" + Format(e) == Format(e);
      AppendFrames("", e);
    } else if Parse(Format(e)).Ok? {
      StoredIsVisible(e);
    }
  }

  lemma RetryDecides(s: Session, entries: seq<Entry>, agentId: string, author: string, body: string, now: string, first: string)
    requires CanonicalBody(author, body) == Some(first) && Parse(s.thread) == Ok(entries)
    ensures Create(Some(s), s.id, agentId, author, body, now)
         == if s.agentId == agentId && s.createdBy == author && FirstMatches(entries, author, first)
            then Existing(s) else Collision
  {
    hide CanonicalBody, Parse, FirstMatches;
  }

  /** Repeating a create that succeeded, after any appends, finds the existing session exactly when
      the submitted body was settled; otherwise the retry is refused as a collision. */
  lemma CreateIsRetrySafe(id: string, agentId: string, author: string, body: string, now: string, later: seq<Entry>)
    requires ValidAuthor(author) && IsTimestamp(now)
    requires forall i | 0 <= i < |later| :: Formattable(later[i]) && Visible(later[i])
    requires Create(None, id, agentId, author, body, now).Created?
    ensures var first := Message(1, 0, author, now, NormalBody(body));
      var grown := Grown(Create(None, id, agentId, author, body, now).session, first, later);
      Create(Some(grown), id, agentId, author, body, now) == if Settled(body) then Existing(grown) else Collision
  {
    hide Parse, Format, FormatAll, HasFirstLine, NormalBody, Settled, CanonicalBody, IsTimestamp, ValidAuthor;
    hide FirstMatches, Formattable, Visible;
    CanonicalIsNormal(author, body);
    NormalSettles(body);
    SecondCreate(id, agentId, author, body, now, later, agentId, author, body, now);
  }

  /** Without carriage returns, the retry is refused exactly when the body ended in a blank line. */
  lemma CreateIsRetrySafeCrFree(id: string, agentId: string, author: string, body: string, now: string, later: seq<Entry>)
    requires ValidAuthor(author) && IsTimestamp(now) && CrFree(body)
    requires forall i | 0 <= i < |later| :: Formattable(later[i]) && Visible(later[i])
    requires Create(None, id, agentId, author, body, now).Created?
    ensures var first := Message(1, 0, author, now, NormalBody(body));
      var grown := Grown(Create(None, id, agentId, author, body, now).session, first, later);
      Create(Some(grown), id, agentId, author, body, now) == if EndsBlankLine(body) then Collision else Existing(grown)
  {
    hide Parse, Format, FormatAll, HasFirstLine, NormalBody, Settled, CanonicalBody, IsTimestamp, ValidAuthor;
    hide FirstMatches, Formattable, Visible, CrFree, EndsBlankLine;
    CanonicalIsNormal(author, body);
    CrFreeSettles(body);
    CreateIsRetrySafe(id, agentId, author, body, now, later);
  }

  lemma FirstFormattable(e: Entry)
    requires e.Message? && e.line == 1 && e.pointTo == 0 && ValidAuthor(e.author) && IsTimestamp(e.timestamp)
    ensures Formattable(e)
  {
    hide ValidAuthor, IsTimestamp;
  }

  lemma StoredReads(first: Entry, later: seq<Entry>)
    requires Formattable(first) && Visible(first)
    requires forall i | 0 <= i < |later| :: Formattable(later[i]) && Visible(later[i])
    ensures Parse(FormatAll([first] + later)) == Ok(NormalAll([first] + later))
  {
    hide Parse, FormatAll, Formattable, Visible, Normal;
    var es := [first] + later;
    forall i | 0 <= i < |es| ensures Formattable(es[i]) && Visible(es[i]) {
      assert es[i] == if i == 0 then first else later[i - 1];
    }
    FileFrames(es);
  }

  lemma FirstMatchesNormal(e: Entry, entries: seq<Entry>, author: string, body: string)
    requires e.Message? && e.line == 1 && e.pointTo == 0
    requires entries != [] && entries[0] == Normal(e)
    ensures FirstMatches(entries, author, body) <==> e.author == author && NormalBody(e.body) == body
  {
    hide NormalBody;
  }

  /** Storing re-reads the text, so a message no reader would see is never stored. */
  lemma StoredIsVisible(e: Entry)
    requires Formattable(e) && Parse(Format(e)).Ok?
    ensures Visible(e)
  {
    if !Visible(e) {
      EntryFileLines(e);
      HeadLine(e);
      hide MatchHeader, FileLines, Format, Chomp2Each;
    }
  }
}

/** Conditional polling: one server entry, one client, any interleaving of puts and polls. */
module Polling {
  import opened Text
  import opened Model
  import opened ETag

  datatype Entry = Entry(revision: string, doc: FeedDocument)

  datatype Response = NotFound | Unchanged | Full(entry: Entry)

  /** What the client received last. */
  datatype Client = Client(revision: string, doc: Option<FeedDocument>)

  datatype World = World(stored: Option<Entry>, client: Client)

  datatype Step = Put(entry: Entry) | Poll

  ghost function Serve(stored: Option<Entry>, header: string, wide: Wide): Response {
    match stored
    case None => NotFound
    case Some(entry) =>
      var etag := Format(entry.revision, wide);
      if !Blank(etag) && Matches(header, etag) then Unchanged else Full(entry)
  }

  function Receive(client: Client, response: Response): Client {
    match response
    case NotFound => client
    case Unchanged => client.(revision := TrimSpace(client.revision))
    case Full(entry) => Client(TrimSpace(entry.revision), Some(entry.doc))
  }

  ghost function Take(w: World, step: Step, wide: Wide): World {
    match step
    case Put(entry) => w.(stored := Some(entry))
    case Poll => w.(client := Receive(w.client, Serve(w.stored, Format(w.client.revision, wide), wide)))
  }

  ghost function Run(w: World, steps: seq<Step>, wide: Wide): World {
    if steps == [] then w else Take(Run(w, steps[..|steps| - 1], wide), steps[|steps| - 1], wide)
  }

  /** Revisions are usable as entity tags and determine the document. */
  ghost predicate Sound(entry: Entry, docOf: string -> FeedDocument) {
    !Blank(entry.revision) && ',' !in TrimSpace(entry.revision) && entry.doc == docOf(TrimSpace(entry.revision))
  }

  /** The client holds nothing, or the document of a usable revision. */
  ghost predicate Holds(client: Client, docOf: string -> FeedDocument) {
    if client.doc.None? then client.revision == ""
    else Trimmed(client.revision) && Sound(Entry(client.revision, client.doc.value), docOf)
  }

  ghost predicate Consistent(w: World, docOf: string -> FeedDocument) {
    Holds(w.client, docOf) && (w.stored.Some? ==> Sound(w.stored.value, docOf))
  }

  /** A poll is answered with 304 exactly when the client's last revision is the stored one; either way the
      client then holds the stored document. */
  lemma PollIsExact(w: World, docOf: string -> FeedDocument, wide: Wide)
    requires Consistent(w, docOf) && w.stored.Some?
    ensures Serve(w.stored, Format(w.client.revision, wide), wide).Unchanged? <==>
            w.client.doc.Some? && w.client.revision == TrimSpace(w.stored.value.revision)
    ensures Take(w, Poll, wide).client == Client(TrimSpace(w.stored.value.revision), Some(w.stored.value.doc))
  {
    if w.client.doc.Some? {
      MatchWithoutCommas(w.client.revision, w.stored.value.revision, wide);
    } else {
      assert Format("", wide) == "" && Blank("");
    }
    QuotedIsNotBlank(TrimSpace(w.stored.value.revision), wide);
  }

  /** In every interleaving of puts and polls the client holds a document under its own revision. */
  lemma {:induction false} PollingIsSound(w: World, steps: seq<Step>, docOf: string -> FeedDocument, wide: Wide)
    requires Consistent(w, docOf)
    requires forall i :: 0 <= i < |steps| && steps[i].Put? ==> Sound(steps[i].entry, docOf)
    ensures Consistent(Run(w, steps, wide), docOf)
  {
    if steps != [] {
      var before := Run(w, steps[..|steps| - 1], wide);
      PollingIsSound(w, steps[..|steps| - 1], docOf, wide);
      if steps[|steps| - 1].Poll? && before.stored.Some? {
        PollIsExact(before, docOf, wide);
      }
    }
  }

  /** Whatever became of a document that was polled, the next poll does not bring it again until it changes:
      a reconciliation that failed is not retried by polling. */
  lemma NextPollBringsNothing(w: World, docOf: string -> FeedDocument, wide: Wide)
    requires Consistent(w, docOf) && w.stored.Some?
    ensures var after := Take(w, Poll, wide);
            Serve(after.stored, Format(after.client.revision, wide), wide).Unchanged?
  {
    PollIsExact(w, docOf, wide);
    PollIsExact(Take(w, Poll, wide), docOf, wide);
  }

  /** With a comma in the held revision a poll can keep a document that is no longer the stored one. */
  lemma CommasKeepStaleDocument(a: string, b: string, c: string, held: FeedDocument, stored: FeedDocument, wide: Wide)
    requires Plain(a) && Plain(b) && Plain(c) && Trimmed(a + "," + b + "," + c)
    requires ',' !in a && ',' !in b && b != "" && Trimmed(b) && NormalizeETag(b) == b
    ensures var w := World(Some(Entry(b, stored)), Client(a + "," + b + "," + c, Some(held)));
            Take(w, Poll, wide).client.doc == Some(held)
  {
    CommasMatchAnother(a, b, c, wide);
    AnsweredUnchanged(World(Some(Entry(b, stored)), Client(a + "," + b + "," + c, Some(held))), wide);
  }

  lemma AnsweredUnchanged(w: World, wide: Wide)
    requires Serve(w.stored, Format(w.client.revision, wide), wide).Unchanged?
    ensures Take(w, Poll, wide).client.doc == w.client.doc
  {
  }
}

/**
 * An abstract POP3 mailbox connection: the listing it returns, the full
 * messages it can fetch by unique id, and a ghost trace of the calls made on it.
 * The wire protocol, the connection's lifetime and its failures are not modelled.
 */
module Mailbox {
  import opened Wrappers
  import opened Reporting

  /** The connection settings of one mailbox (Pop3Settings). */
  datatype Pop3Settings = Pop3Settings(
    password: string,
    port: int,
    server: Option<string>,
    useSsl: bool,
    userName: string,
    startTls: bool)

  /** Observable steps of one polling cycle, in the order they happen. */
  datatype Event =
    | CountQueried                    // GetMailboxCount
    | Listed                          // GetMails
    | Fetched(uidl: string)           // FetchEmail, issued by the inspector
    | Retrieved(uidl: string)         // GetMail, issued by the receiver
    | Handled(batch: seq<Bounce>)     // the caller's handler was invoked with this batch
    | Deleted(ids: seq<string>)       // DeleteMultipleMails

  /** The set of the ids in a sequence. */
  function IdSet(ids: seq<string>): (r: set<string>)
    ensures forall id :: id in r <==> id in ids
  {
    set id | id in ids
  }

  /** The listing without the messages whose unique id is among `ids`, order kept. */
  function Without(listing: seq<Summary>, ids: seq<string>): (r: seq<Summary>)
    ensures |r| <= |listing|
    ensures forall m :: m in r <==> m in listing && m.uidl !in ids
  {
    if listing == [] then []
    else (if listing[0].uidl in ids then [] else [listing[0]]) + Without(listing[1..], ids)
  }

  class Pop3Client {
    /** The messages GetMails lists, in mailbox order. */
    var summaries: seq<Summary>
    /** The full messages, keyed by unique id; a missing key is a fetch that returns null. */
    var store: map<string, Email>
    /** Every call made on this connection, and the handler hand-off, in order. */
    ghost var events: seq<Event>

    constructor (summaries: seq<Summary>, store: map<string, Email>)
      ensures this.summaries == summaries && this.store == store && events == []
    {
      this.summaries := summaries;
      this.store := store;
      events := [];
    }

    method GetMailboxCount() returns (count: int)
      modifies this`events
      ensures count == |summaries|
      ensures events == old(events) + [CountQueried]
    {
      count := |summaries|;
      events := events + [CountQueried];
    }

    method GetMails() returns (listing: seq<Summary>)
      modifies this`events
      ensures listing == summaries
      ensures events == old(events) + [Listed]
    {
      listing := summaries;
      events := events + [Listed];
    }

    /** FetchEmail (the MailMan view of the same mailbox). */
    method FetchEmail(uidl: string) returns (email: Option<Email>)
      modifies this`events
      ensures email == (if uidl in store then Some(store[uidl]) else None)
      ensures events == old(events) + [Fetched(uidl)]
    {
      email := if uidl in store then Some(store[uidl]) else None;
      events := events + [Fetched(uidl)];
    }

    /** GetMail: the full message with this unique id, or null. */
    method GetMail(uidl: string) returns (email: Option<Email>)
      modifies this`events
      ensures email == (if uidl in store then Some(store[uidl]) else None)
      ensures events == old(events) + [Retrieved(uidl)]
    {
      email := if uidl in store then Some(store[uidl]) else None;
      events := events + [Retrieved(uidl)];
    }

    /** DeleteMultipleMails: removes every message whose id is listed. */
    method DeleteMultipleMails(ids: seq<string>)
      modifies this
      ensures store == old(store) - IdSet(ids)
      ensures summaries == Without(old(summaries), ids)
      ensures events == old(events) + [Deleted(ids)]
    {
      store := store - IdSet(ids);
      summaries := Without(summaries, ids);
      events := events + [Deleted(ids)];
    }
  }
}

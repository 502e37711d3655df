/** Channel names, and which grants a stream on a channel may hold
    (internal/sse/handler.go:110-152, internal/auth/subscriber.go:263-281). */
module Channels {
  import opened WalTypes
  import opened Whitelists

  // ----- Channel names -----

  function IndexOf(s: string, c: char): (k: nat)
    ensures k <= |s|
    ensures k < |s| ==> s[k] == c
    ensures forall i :: 0 <= i < k ==> s[i] != c
  {
    if s == "" || s[0] == c then 0 else 1 + IndexOf(s[1..], c)
  }

  function TableFromChannel(channel: string): string {
    var table := channel[..IndexOf(channel, ':')];
    var dot := IndexOf(table, '.');
    if dot < |table| then table[dot + 1..] else table
  }

  predicate TableStart(c: char) {
    'a' <= c <= 'z' || c == '_'
  }

  // ^[a-z_][a-z0-9_]*$, at most 64 characters.
  predicate ValidTableName(s: string) {
    && 0 < |s| <= 64 && TableStart(s[0])
    && forall i :: 0 <= i < |s| ==> TableStart(s[i]) || '0' <= s[i] <= '9'
  }

  // The channel of one row; None is a rejected request. size is the length in bytes.
  function ExactChannel(size: string -> nat, table: string, pk: string): Option<string> {
    if !ValidTableName(table) || pk == "" || size(pk) > 256 || pk == "all" then None
    else Some(table + ":" + pk)
  }

  function WildcardChannel(table: string): Option<string> {
    if !ValidTableName(table) then None else Some(table + ":" + "all")
  }

  lemma {:induction false} IndexAfter(s: string, c: char, rest: string)
    requires c !in s
    ensures IndexOf(s + [c] + rest, c) == |s|
  {
    if s == "" {
      assert s + [c] + rest == [c] + rest;
    } else {
      IndexAfter(s[1..], c, rest);
      assert (s + [c] + rest)[1..] == s[1..] + [c] + rest;
    }
  }

  /** The table is recovered from a channel exactly when its name holds no ':' and no
      '.', whatever the key text holds. */
  lemma TableIsRecovered(table: string, pk: string)
    ensures TableFromChannel(table + ":" + pk) == table <==> ':' !in table && '.' !in table
  {
    var channel := table + ":" + pk;
    if ':' in table {
      var i :| 0 <= i < |table| && table[i] == ':';
      assert channel[i] == ':';
      assert IndexOf(channel, ':') <= i;
    } else {
      IndexAfter(table, ':', pk);
      assert channel == table + [':'] + pk;
      assert channel[..|table|] == table;
      var dot := IndexOf(table, '.');
      if dot < |table| {
        assert '.' in table && |table[dot + 1..]| < |table|;
      }
    }
  }

  lemma ChannelParts(t1: string, p1: string, t2: string, p2: string)
    requires ':' !in t1 && ':' !in t2 && t1 + ":" + p1 == t2 + ":" + p2
    ensures t1 == t2 && p1 == p2
  {
    var channel := t1 + ":" + p1;
    IndexAfter(t1, ':', p1);
    IndexAfter(t2, ':', p2);
    assert channel == t1 + [':'] + p1 == t2 + [':'] + p2;
    assert channel[..|t1|] == t1 && channel[..|t2|] == t2;
    assert channel[|t1| + 1..] == p1 && channel[|t2| + 1..] == p2;
  }

  /** The handler's channel strings name the table checked at the handshake, whatever
      the key text holds; they tell any two rows apart, and rows from whole tables. */
  lemma ChannelsAreDistinct(size: string -> nat, t1: string, p1: string, t2: string, p2: string)
    ensures ExactChannel(size, t1, p1).Some? ==> TableFromChannel(ExactChannel(size, t1, p1).value) == t1
    ensures WildcardChannel(t1).Some? ==> TableFromChannel(WildcardChannel(t1).value) == t1
    ensures ExactChannel(size, t1, p1).Some? && ExactChannel(size, t1, p1) == ExactChannel(size, t2, p2) ==>
              t1 == t2 && p1 == p2
    ensures ExactChannel(size, t1, p1).Some? ==> ExactChannel(size, t1, p1) != WildcardChannel(t2)
  {
    TableIsRecovered(t1, p1);
    TableIsRecovered(t1, "all");
    if ExactChannel(size, t1, p1).Some? {
      if ExactChannel(size, t1, p1) == ExactChannel(size, t2, p2) {
        ChannelParts(t1, p1, t2, p2);
      }
      if ExactChannel(size, t1, p1) == WildcardChannel(t2) {
        ChannelParts(t1, p1, t2, "all");
      }
    }
  }

  // ----- Grants for a channel -----

  // What the auth backend answers; Denied is one of its three refusals.
  datatype Response =
    | Allows(grant: Option<Whitelist>)
    | Denied
    | Unavailable
    | Failed

  predicate RefreshMapAllowed(channel: string, userID: string, grant: Option<Whitelist>) {
    var table := TableFromChannel(channel);
    table != "" && grant.Some? && grant.value.userID == userID && table in grant.value.tables
  }

  predicate Refuses(channel: string, userID: string, response: Response) {
    response.Denied? || (response.Allows? && !RefreshMapAllowed(channel, userID, response.grant))
  }

  // The copy a subscriber keeps: its own stamp, and no startup payload.
  function StoredCopy(grant: Whitelist, lsn: LSN): Whitelist {
    grant.(initialData := None, refreshLSN := lsn)
  }

  /** The grant a handshake admits is one a refresh would accept: for the user it was
      issued to, and with the channel's table, whatever the key text. */
  lemma AdmittedGrantIsAllowed(size: string -> nat, table: string, pk: string, grant: Whitelist)
    requires table in grant.tables
    ensures ExactChannel(size, table, pk).Some? ==>
              RefreshMapAllowed(ExactChannel(size, table, pk).value, grant.userID, Some(grant))
    ensures WildcardChannel(table).Some? ==>
              RefreshMapAllowed(WildcardChannel(table).value, grant.userID, Some(grant))
  {
    ChannelsAreDistinct(size, table, pk, table, pk);
  }

  /** An answer to a refresh is refused exactly when the backend denies, grants nothing,
      or grants to another user or without the table the stream was opened on. */
  lemma RefusalIsExact(size: string -> nat, table: string, pk: Option<string>, userID: string, response: Response)
    ensures var channel := if pk.Some? then ExactChannel(size, table, pk.value) else WildcardChannel(table);
      channel.Some? ==>
        (Refuses(channel.value, userID, response) <==>
           || response.Denied?
           || (response.Allows?
               && (response.grant.None? || response.grant.value.userID != userID
                   || table !in response.grant.value.tables)))
  {
    var key := if pk.Some? then pk.value else "";
    ChannelsAreDistinct(size, table, key, table, key);
  }
}

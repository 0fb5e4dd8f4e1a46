/**
  A gateway's database row and the token list inside its JSON properties.

  Ciphertexts differ from call to call because of their random nonce; what
  matters is that decryption inverts encryption and may fail on foreign bytes.
*/
module GatewayRows {
  import opened TokenLists
  import opened Wrappers

  datatype Cipher = Sealed(plain: string, nonce: nat) | Garbled

  datatype GatewayType = Rooms | Streaming | OtherType

  datatype SealedToken = SealedToken(cipher: Cipher, plugins: seq<string>, createdAt: int)

  // The value under the key "tokens" of the properties object.
  datatype TokensProp = NoTokens | NullTokens | Unreadable | Tokens(list: seq<SealedToken>)

  datatype Properties = NullColumn | BadJson | Object(tokens: TokensProp, rest: map<string, string>)

  datatype Row = Row(id: int, name: string, gtype: GatewayType, disabled: bool, removed: bool, properties: Properties)

  datatype PropertiesError = BadProperties | BadTokens | BadCipher

  function Encrypt(plain: string, nonce: nat): Cipher {
    Sealed(plain, nonce)
  }

  function Decrypt(t: SealedToken): Option<string> {
    if t.cipher.Sealed? then Some(t.cipher.plain) else None
  }

  function PluginsFor(gtype: GatewayType): seq<string> {
    match gtype
    case Rooms => ["janus.plugin.videoroom", "janus.plugin.textroom"]
    case Streaming => ["janus.plugin.streaming"]
    case OtherType => []
  }

  // The token list as the manager unmarshals it.
  function TokenList(p: Properties): Result<seq<SealedToken>, PropertiesError> {
    match p
    case NullColumn => Ok([])
    case BadJson => Err(BadProperties)
    case Object(NoTokens, _) => Ok([])
    case Object(NullTokens, _) => Ok([])
    case Object(Unreadable, _) => Err(BadTokens)
    case Object(Tokens(list), _) => Ok(list)
  }

  // The properties which are not the manager's business.
  function Rest(p: Properties): map<string, string> {
    if p.Object? then p.rest else map[]
  }

  // The token handed to clients: the newest of the list, or "" when there is none.
  function ActiveToken(p: Properties): Result<string, PropertiesError> {
    match TokenList(p)
    case Err(e) => Err(e)
    case Ok(list) =>
      if list == [] then Ok("")
      else match Decrypt(list[|list| - 1])
           case None => Err(BadCipher)
           case Some(plain) => Ok(plain)
  }

  predicate Decryptable(list: seq<SealedToken>) {
    forall t :: t in list ==> t.cipher.Sealed?
  }

  function Opened(list: seq<SealedToken>): (ts: seq<Entry>)
    requires Decryptable(list)
    ensures |ts| == |list|
  {
    if list == [] then []
    else
      var t := list[|list| - 1];
      Opened(list[..|list| - 1]) + [Entry(t.cipher.plain, t.createdAt)]
  }

  // The stored tokens; none where the column, the key or its value is missing or null.
  ghost function Stored(p: Properties): seq<SealedToken> {
    if p.Object? && p.tokens.Tokens? then p.tokens.list else []
  }

  // A column that is null is as good as one without tokens.
  ghost predicate Readable(p: Properties) {
    match p
    case NullColumn => true
    case BadJson => false
    case Object(NoTokens, _) => true
    case Object(NullTokens, _) => true
    case Object(Unreadable, _) => false
    case Object(Tokens(list), _) => forall t :: t in list ==> t.cipher.Sealed?
  }

  ghost function Entries(p: Properties): seq<Entry>
    requires Readable(p)
  {
    Opened(Stored(p))
  }

  // The list is read except from bad JSON.
  lemma TokenListIsStored(p: Properties)
    ensures TokenList(p).Err? <==> p.BadJson? || (p.Object? && p.tokens.Unreadable?)
    ensures TokenList(p).Ok? ==> TokenList(p).value == Stored(p)
    ensures Readable(p) <==> TokenList(p).Ok? && Decryptable(Stored(p))
  {
  }

  // The token clients are to be served, or none where it cannot be read.
  ghost function Newest(p: Properties): Option<string> {
    match p
    case BadJson => None
    case Object(Unreadable, _) => None
    case _ =>
      var list := Stored(p);
      if list == [] then Some("")
      else if list[|list| - 1].cipher.Sealed? then Some(list[|list| - 1].cipher.plain)
      else None
  }

  lemma ActiveTokenIsNewest(p: Properties)
    ensures ActiveToken(p).Ok? <==> Newest(p).Some?
    ensures ActiveToken(p).Ok? ==> ActiveToken(p).value == Newest(p).value
  {
  }

  // An entry for each stored token, with its plaintext and date.
  lemma {:induction false} OpenedAt(list: seq<SealedToken>, i: nat)
    requires Decryptable(list) && i < |list|
    ensures Opened(list)[i] == Entry(list[i].cipher.plain, list[i].createdAt)
  {
    if i < |list| - 1 {
      OpenedAt(list[..|list| - 1], i);
    }
  }

  lemma NewestIsLastEntry(p: Properties)
    requires Readable(p)
    ensures Entries(p) == [] <==> Stored(p) == []
    ensures Newest(p) == Some(if Entries(p) == [] then "" else Entries(p)[|Entries(p)| - 1].plain)
  {
    if Stored(p) != [] {
      OpenedAt(Stored(p), |Stored(p)| - 1);
    }
  }

  lemma OpenedSnoc(list: seq<SealedToken>, t: SealedToken)
    requires Decryptable(list) && t.cipher.Sealed?
    ensures Decryptable(list + [t])
    ensures Opened(list + [t]) == Opened(list) + [Entry(t.cipher.plain, t.createdAt)]
  {
    assert (list + [t])[..|list + [t]| - 1] == list;
  }

  lemma SplitSnoc(ts: seq<Entry>, e: Entry, cutoff: int, listed: set<string>)
    ensures Kept(ts + [e], cutoff) == Kept(ts, cutoff) + if e.createdAt < cutoff then [] else [e]
    ensures Missing(ts + [e], cutoff, listed) ==
            Missing(ts, cutoff, listed) + if e.createdAt < cutoff || e.plain in listed then [] else [e.plain]
    ensures Lapsed(ts + [e], cutoff, listed) ==
            Lapsed(ts, cutoff, listed) + if e.createdAt < cutoff && e.plain in listed then [e.plain] else []
    ensures Plains(ts + [e]) == Plains(ts) + {e.plain}
  {
    assert (ts + [e])[..|ts + [e]| - 1] == ts;
  }

  // Kept entries with their ciphertexts.
  ghost function Unlapsed(list: seq<SealedToken>, cutoff: int): seq<SealedToken> {
    if list == [] then []
    else
      var t := list[|list| - 1];
      Unlapsed(list[..|list| - 1], cutoff) + if t.createdAt < cutoff then [] else [t]
  }

  lemma {:induction false} UnlapsedIsKept(list: seq<SealedToken>, cutoff: int)
    requires Decryptable(list)
    ensures |Unlapsed(list, cutoff)| <= |list|
    ensures forall t :: t in Unlapsed(list, cutoff) ==> t in list && cutoff <= t.createdAt
    ensures Decryptable(Unlapsed(list, cutoff))
    ensures Opened(Unlapsed(list, cutoff)) == Kept(Opened(list), cutoff)
  {
    if list != [] {
      var front, t := list[..|list| - 1], list[|list| - 1];
      UnlapsedIsKept(front, cutoff);
      SplitSnoc(Opened(front), Entry(t.cipher.plain, t.createdAt), cutoff, {});
      if t.createdAt < cutoff {
        assert Unlapsed(list, cutoff) == Unlapsed(front, cutoff);
      } else {
        OpenedSnoc(Unlapsed(front, cutoff), t);
      }
    }
  }
}

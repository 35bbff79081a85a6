/** A browser's room-key history: what `appendRoomKey` keeps and which messages it can read. */
module KeyStore {
  import opened Bytes

  type Secret = nat

  /** Most recent key last, and the last epoch seen from the server. */
  datatype Stored = Stored(keys: seq<Secret>, lastEpoch: nat)

  function Append(s: Stored, key: Secret, epoch: nat): Stored
  {
    Stored(if key in s.keys then s.keys else s.keys + [key], if epoch > s.lastEpoch then epoch else s.lastEpoch)
  }

  /** What opening a ciphertext under one key may come to. */
  datatype Attempt = Opened(plaintext: seq<int>) | WrongKey | Fault

  datatype Decryption = Plain(plaintext: seq<int>) | NoKeyFits | Failed

  datatype Ciphertext = Ciphertext(room: seq<int>, nonce: seq<int>, key: Secret, plaintext: seq<int>)

  /** The authenticated cipher, symbolically: only the key, room and nonce it was sealed under open it. */
  function Open(c: Ciphertext, room: seq<int>, nonce: seq<int>, key: Secret): Attempt
  {
    if c.key == key && c.room == room && c.nonce == nonce then Opened(c.plaintext) else WrongKey
  }

  class RoomKeys {
    var keys: seq<Secret>
    var lastEpoch: nat

    function Contents(): Stored
      reads this
    {
      Stored(keys, lastEpoch)
    }

    constructor (initial: seq<Secret>)
      ensures Contents() == Stored(initial, 0)
    {
      keys, lastEpoch := initial, 0;
    }

    method AppendRoomKey(newKey: Secret, newEpoch: nat)
      modifies this
      ensures Contents() == Append(old(Contents()), newKey, newEpoch)
      ensures keys == if newKey in old(keys) then old(keys) else old(keys) + [newKey]
      ensures lastEpoch >= old(lastEpoch) && lastEpoch >= newEpoch && lastEpoch in {old(lastEpoch), newEpoch}
    {
      if newKey !in keys {
        keys := keys + [newKey];
      }
      if newEpoch > lastEpoch {
        lastEpoch := newEpoch;
      }
    }

    /** `encryptMessage`: always under the last key; with no keys it throws. */
    method EncryptMessage(room: seq<int>, nonce: seq<int>, plaintext: seq<int>) returns (c: Ciphertext, ok: bool)
      ensures ok <==> |keys| > 0
      ensures ok ==> c == Ciphertext(room, nonce, keys[|keys| - 1], plaintext)
    {
      ok := |keys| > 0;
      c := Ciphertext(room, nonce, if ok then keys[|keys| - 1] else 0, plaintext);
    }

    /** `decryptMessage`: newest key first; a wrong key moves on, any other error stops the search. */
    method DecryptMessage(attempt: Secret -> Attempt) returns (d: Decryption)
      ensures d == NoKeyFits <==> forall i | 0 <= i < |keys| :: attempt(keys[i]).WrongKey?
      ensures d != NoKeyFits ==>
                exists i :: 0 <= i < |keys| && (forall j | i < j < |keys| :: attempt(keys[j]).WrongKey?) &&
                  attempt(keys[i]) == match d case Plain(p) => Opened(p) case _ => Fault
    {
      var i := |keys|;
      while i > 0
        invariant 0 <= i <= |keys|
        invariant forall j | i <= j < |keys| :: attempt(keys[j]).WrongKey?
      {
        i := i - 1;
        match attempt(keys[i])
        case Opened(p) => return Plain(p);
        case Fault => return Failed;
        case WrongKey =>
      }
      d := NoKeyFits;
    }

    /** Reading a message with the keys of this browser: it decrypts, and to its own plaintext, if
        and only if it was sealed for this room and nonce and its key is in the history, wherever in it. */
    method ReadMessage(c: Ciphertext, room: seq<int>, nonce: seq<int>) returns (d: Decryption)
      ensures d == if c.key in keys && c.room == room && c.nonce == nonce then Plain(c.plaintext) else NoKeyFits
    {
      d := DecryptMessage((key: Secret) => Open(c, room, nonce, key));
      if c.key in keys {
        var i :| 0 <= i < |keys| && keys[i] == c.key;
        assert c.room == room && c.nonce == nonce ==> Open(c, room, nonce, keys[i]).Opened?;
      }
    }
  }

  function AppendAll(s: Stored, news: seq<(Secret, nat)>): Stored
  {
    if |news| == 0 then s
    else Append(AppendAll(s, news[..|news| - 1]), news[|news| - 1].0, news[|news| - 1].1)
  }

  predicate Given(news: seq<(Secret, nat)>, key: Secret) { exists i :: 0 <= i < |news| && news[i].0 == key }

  /** However many keys are appended, a history only grows at its end, without repeats, and its
      epoch is the highest it was given: so what it once decrypted it always decrypts. */
  lemma {:induction false} HistoryOnlyGrows(s: Stored, news: seq<(Secret, nat)>)
    requires NoRepeats(s.keys)
    ensures var t := AppendAll(s, news);
            && s.keys <= t.keys && NoRepeats(t.keys)
            && (forall k :: k in t.keys <==> k in s.keys || Given(news, k))
            && s.lastEpoch <= t.lastEpoch && (forall i | 0 <= i < |news| :: news[i].1 <= t.lastEpoch)
            && (t.lastEpoch == s.lastEpoch || exists i :: 0 <= i < |news| && news[i].1 == t.lastEpoch)
  {
    if |news| > 0 {
      var front, last := news[..|news| - 1], news[|news| - 1];
      HistoryOnlyGrows(s, front);
      var t := AppendAll(s, front);
      forall k ensures Given(news, k) <==> k == last.0 || Given(front, k) {
        if Given(news, k) {
          var i :| 0 <= i < |news| && news[i].0 == k;
          assert i < |front| ==> front[i].0 == k;
        }
        if Given(front, k) {
          var i :| 0 <= i < |front| && front[i].0 == k;
          assert news[i].0 == k;
        }
        assert news[|news| - 1].0 == last.0;
      }
      if t.lastEpoch != s.lastEpoch && last.1 <= t.lastEpoch {
        var i :| 0 <= i < |front| && front[i].1 == t.lastEpoch;
        assert news[i].1 == t.lastEpoch;
      }
      forall i | 0 <= i < |news| ensures news[i].1 <= AppendAll(s, news).lastEpoch {
        if i < |front| { assert front[i] == news[i]; }
      }
    }
  }
}

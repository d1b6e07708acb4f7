/** Length-prefixed fields: msgWriter on one side, ReadFullByLen on the other; and the client
    identity that travels in one of them. */
module Fields {
  import opened BigEndian

  datatype Option<T> = None | Some(value: T)

  /** The low n bytes of the length, then the message. */
  function Field(n: nat, msg: seq<Byte>): (r: seq<Byte>)
    ensures |r| == n + |msg|
  {
    Put(|msg|, n) + msg
  }

  datatype Read = Short | Done(buf: seq<Byte>, rest: seq<Byte>)

  function ReadFullByLen(n: nat, input: seq<Byte>): Read {
    if |input| < n then Short
    else
      var len := Get(input[..n]);
      if |input| < n + len then Short else Done(input[n..n + len], input[n + len..])
  }

  /** A field comes back whole exactly when its length fits the length bytes. */
  lemma FieldRoundTrip(n: nat, msg: seq<Byte>, rest: seq<Byte>)
    ensures ReadFullByLen(n, Field(n, msg) + rest) == Done(msg, rest) <==> |msg| < Pow256(n)
  {
    var input := Field(n, msg) + rest;
    assert input[..n] == Put(|msg|, n);
    GetPut(|msg|, n);
    GetBound(Put(|msg|, n));
    hide Put, Get, Pow256;
    if |msg| < Pow256(n) {
      assert input[n..n + |msg|] == msg && input[n + |msg|..] == rest;
    }
  }

  class MsgWriter {
    var buf: seq<Byte>

    constructor ()
      ensures buf == []
    {
      buf := [];
    }

    method WriteL1Msg(msg: seq<Byte>)
      modifies this
      ensures buf == old(buf) + Field(1, msg)
    {
      buf := buf + Put(|msg|, 1);
      buf := buf + msg;
    }

    method WriteL2Msg(msg: seq<Byte>)
      modifies this
      ensures buf == old(buf) + Field(2, msg)
    {
      var tmp := Put(|msg|, 2);
      buf := buf + tmp;
      buf := buf + msg;
    }

    method WriteMsg(msg: seq<Byte>)
      modifies this
      ensures buf == old(buf) + msg
    {
      buf := buf + msg;
    }

    /** The writer is empty again afterwards. */
    method WriteTo() returns (out: seq<Byte>)
      modifies this
      ensures out == old(buf) && buf == []
    {
      out := buf;
      buf := [];
    }
  }

  // ---- identity ----

  /** user, NUL, password; None is the panic on more than 255 bytes. */
  function SerializeIdentity(user: seq<Byte>, pass: seq<Byte>): Option<seq<Byte>> {
    var identity := user + [0] + pass;
    if |identity| > 255 then None else Some(identity)
  }

  /** The pieces between the NULs; there is always one piece more than there are NULs. */
  function Split(block: seq<Byte>): (r: seq<seq<Byte>>)
    ensures |r| >= 1
  {
    if block == [] then [[]]
    else if block[0] == 0 then [[]] + Split(block[1..])
    else
      var r := Split(block[1..]);
      [[block[0]] + r[0]] + r[1..]
  }

  datatype Identity = Identity(user: seq<Byte>, pass: seq<Byte>) | Malformed

  function DeserializeIdentity(block: seq<Byte>): Identity {
    var fields := Split(block);
    if |fields| != 2 then Malformed else Identity(fields[0], fields[1])
  }

  lemma {:induction false} SplitPlain(s: seq<Byte>)
    ensures 0 !in s <==> Split(s) == [s]
    ensures 0 in s ==> |Split(s)| >= 2
  {
    if s != [] {
      SplitPlain(s[1..]);
      assert s == [s[0]] + s[1..];
    }
  }

  lemma {:induction false} SplitConcat(user: seq<Byte>, rest: seq<Byte>)
    requires 0 !in user
    ensures Split(user + [0] + rest) == [user] + Split(rest)
  {
    var block := user + [0] + rest;
    if user == [] {
      assert block[1..] == rest;
    } else {
      assert block[0] == user[0] && block[1..] == user[1..] + [0] + rest;
      SplitConcat(user[1..], rest);
      assert user == [user[0]] + user[1..];
    }
  }

  /** A NUL in the user name yields at least three pieces. */
  lemma {:induction false} SplitNul(user: seq<Byte>, rest: seq<Byte>)
    requires 0 in user
    ensures |Split(user + [0] + rest)| >= 3
  {
    var block := user + [0] + rest;
    assert block[0] == user[0] && block[1..] == user[1..] + [0] + rest;
    if user[0] == 0 {
      if 0 in user[1..] {
        SplitNul(user[1..], rest);
      } else {
        SplitConcat(user[1..], rest);
      }
    } else {
      SplitNul(user[1..], rest);
    }
  }

  /** The server recovers the name and the password exactly when neither holds a NUL; else it
      rejects the identity. */
  lemma IdentityRoundTrip(user: seq<Byte>, pass: seq<Byte>)
    ensures var block := user + [0] + pass;
            DeserializeIdentity(block) == if 0 !in user && 0 !in pass then Identity(user, pass) else Malformed
  {
    if 0 in user {
      SplitNul(user, pass);
    } else {
      SplitConcat(user, pass);
      SplitPlain(pass);
    }
  }
}

/**
 * The text of the station-selection export: one line
 * "net, sta, cha, loc" per requested stream key.
 */
module Export {
  import opened Types

  function Line(k: StreamKey): string
  {
    k.net + ", " + k.sta + ", " + k.cha + ", " + k.loc + "\n"
  }

  /**
   * The export text for the keys in order. It succeeds exactly when every
   * key has four components; otherwise it reports the first malformed key.
   */
  function Selection(streams: seq<seq<string>>): (r: Result<string, Error>)
    ensures r.Ok? <==> forall i :: 0 <= i < |streams| ==> |streams[i]| == 4
    ensures r.Err? ==>
      exists i :: && 0 <= i < |streams| && |streams[i]| != 4
                  && r.error == InvalidStream(streams[i])
                  && forall j :: 0 <= j < i ==> |streams[j]| == 4
  {
    if streams == [] then Ok("")
    else match ParseKey(streams[0])
      case Err(e) => Err(e)
      case Ok(k) =>
        match Selection(streams[1..])
        case Err(e) =>
          assert forall i :: 0 <= i < |streams[1..]| ==> streams[1..][i] == streams[i + 1];
          var i :| && 0 <= i < |streams[1..]| && |streams[1..][i]| != 4
                   && e == InvalidStream(streams[1..][i])
                   && forall j :: 0 <= j < i ==> |streams[1..][j]| == 4;
          assert |streams[i + 1]| != 4 && forall j :: 0 <= j < i + 1 ==> |streams[j]| == 4;
          Err(e)
        case Ok(rest) =>
          assert forall i :: 0 <= i < |streams[1..]| ==> streams[1..][i] == streams[i + 1];
          Ok(Line(k) + rest)
  }

  /** A single well-formed key exports as "net, sta, cha, loc" and a line break. */
  lemma SelectionOne(raw: seq<string>)
    requires |raw| == 4
    ensures Selection([raw]) == Ok(raw[0] + ", " + raw[1] + ", " + raw[2] + ", " + raw[3] + "\n")
  {
    assert [raw][1..] == [];
    var k := ParseKey(raw).value;
    assert Codes(k) == raw;
    assert Line(k) + "" == Line(k);
  }

  /** A successful export starts with its first key's line. */
  lemma SelectionCons(streams: seq<seq<string>>)
    requires Selection(streams).Ok? && streams != []
    ensures |streams[0]| == 4 && Selection(streams[1..]).Ok?
    ensures Selection(streams).value == Line(ParseKey(streams[0]).value) + Selection(streams[1..]).value
  {
  }

  /** Putting a well-formed key in front of a successful export prepends its line. */
  lemma SelectionPrepend(raw: seq<string>, rest: seq<seq<string>>)
    requires |raw| == 4 && Selection(rest).Ok?
    ensures Selection([raw] + rest) == Ok(Line(ParseKey(raw).value) + Selection(rest).value)
  {
    assert ([raw] + rest)[0] == raw && ([raw] + rest)[1..] == rest;
  }

  lemma ConsAppend<T>(s1: seq<T>, s2: seq<T>)
    requires s1 != []
    ensures s1 + s2 == [s1[0]] + (s1[1..] + s2)
  {
  }

  lemma AppendAssoc<T>(x: seq<T>, y: seq<T>, z: seq<T>)
    ensures x + (y + z) == (x + y) + z
  {
  }

  /** The export of a concatenation is the concatenation of the exports. */
  lemma {:induction false} SelectionAppend(s1: seq<seq<string>>, s2: seq<seq<string>>)
    requires Selection(s1).Ok? && Selection(s2).Ok?
    ensures Selection(s1 + s2) == Ok(Selection(s1).value + Selection(s2).value)
  {
    if s1 == [] {
      assert s1 + s2 == s2;
      assert Selection(s1) == Ok("");
      assert "" + Selection(s2).value == Selection(s2).value;
    } else {
      SelectionCons(s1);
      SelectionAppend(s1[1..], s2);
      ConsAppend(s1, s2);
      SelectionPrepend(s1[0], s1[1..] + s2);
      var line, a, b := Line(ParseKey(s1[0]).value), Selection(s1[1..]).value, Selection(s2).value;
      AppendAssoc(line, a, b);
    }
  }

  /**
   * Line i of a successful export is the i-th key's four codes, in order,
   * separated by ", ".
   */
  lemma {:induction false} SelectionLine(streams: seq<seq<string>>, i: nat)
    requires Selection(streams).Ok? && i < |streams|
    ensures
      var raw := streams[i];
      && Selection(streams[..i]).Ok? && Selection(streams[i + 1..]).Ok?
      && Selection(streams).value
           == Selection(streams[..i]).value
              + (raw[0] + ", " + raw[1] + ", " + raw[2] + ", " + raw[3] + "\n")
              + Selection(streams[i + 1..]).value
  {
    var pre, x, post := streams[..i], streams[i], streams[i + 1..];
    assert streams == pre + ([x] + post);
    assert Selection(pre).Ok? by {
      forall j | 0 <= j < |pre| ensures |pre[j]| == 4 { assert pre[j] == streams[j]; }
    }
    assert Selection(post).Ok? by {
      forall j | 0 <= j < |post| ensures |post[j]| == 4 { assert post[j] == streams[i + 1 + j]; }
    }
    SelectionOne(x);
    SelectionAppend([x], post);
    SelectionAppend(pre, [x] + post);
    assert Selection(pre).value + (Selection([x]).value + Selection(post).value)
        == Selection(pre).value + Selection([x]).value + Selection(post).value;
  }

  function Newlines(s: string): nat
  {
    if s == [] then 0 else (if s[0] == '\n' then 1 else 0) + Newlines(s[1..])
  }

  lemma {:induction false} NewlinesAppend(a: string, b: string)
    ensures Newlines(a + b) == Newlines(a) + Newlines(b)
  {
    if a != [] {
      assert (a + b)[1..] == a[1..] + b;
      NewlinesAppend(a[1..], b);
    } else {
      assert a + b == b;
    }
  }

  /** The export has one line per key, when no code contains a line break. */
  lemma {:induction false} SelectionLines(streams: seq<seq<string>>)
    requires Selection(streams).Ok?
    requires forall i, c :: 0 <= i < |streams| && c in streams[i] ==> '\n' !in c
    ensures Newlines(Selection(streams).value) == |streams|
  {
    if streams != [] {
      var tail := streams[1..];
      assert forall i :: 0 <= i < |tail| ==> tail[i] == streams[i + 1];
      SelectionLines(tail);
      var k := ParseKey(streams[0]).value;
      NewlinesAppend(Line(k), Selection(tail).value);
      assert streams[0][0] in streams[0] && streams[0][1] in streams[0] && streams[0][2] in streams[0] && streams[0][3] in streams[0];
      LineNewlines(k);
    }
  }

  lemma LineNewlines(k: StreamKey)
    requires '\n' !in k.net && '\n' !in k.sta && '\n' !in k.cha && '\n' !in k.loc
    ensures Newlines(Line(k)) == 1
  {
    var sep := ", ";
    NewlinesAppend(k.net, sep);
    NewlinesAppend(k.net + sep, k.sta);
    NewlinesAppend(k.net + sep + k.sta, sep);
    NewlinesAppend(k.net + sep + k.sta + sep, k.cha);
    NewlinesAppend(k.net + sep + k.sta + sep + k.cha, sep);
    NewlinesAppend(k.net + sep + k.sta + sep + k.cha + sep, k.loc);
    NewlinesAppend(k.net + sep + k.sta + sep + k.cha + sep + k.loc, "\n");
    NoNewlines(k.net);
    NoNewlines(k.sta);
    NoNewlines(k.cha);
    NoNewlines(k.loc);
  }

  lemma {:induction false} NoNewlines(s: string)
    requires '\n' !in s
    ensures Newlines(s) == 0
  {
    if s != [] {
      assert s[0] in s;
      assert forall c :: c in s[1..] ==> c in s;
      NoNewlines(s[1..]);
    }
  }
}

/** The type instance of a curl_json submission: the names along the path joined into a fixed buffer, one
    `snprintf` after the other. */
module CurlJsonSubmit {
  import opened Common
  import opened CurlJson

  /** The names joined by dashes. */
  function Dashed(names: seq<string>): string
  {
    if names == [] then ""
    else if |names| == 1 then names[0]
    else Dashed(names[..|names| - 1]) + "-" + names[|names| - 1]
  }

  /** What the buffer holds and the length counted so far. */
  datatype Buffer = Buffer(text: string, length: nat)

  /** One `snprintf` behind the counted length; the space left is computed without a sign, so nothing is in the
      way once the length has passed the size. */
  function Printed(b: Buffer, piece: string): Option<Buffer>
  {
    if b.length > DATA_MAX_NAME_LEN then None
    else if b.length == DATA_MAX_NAME_LEN then Some(b.(length := b.length + |piece|))
    else
      var room := DATA_MAX_NAME_LEN - b.length;
      Some(Buffer(b.text + Truncate(piece, room), b.length + |piece|))
  }

  /** The loop of `cj_submit_impl`; None when it writes behind the buffer. */
  function Instance(names: seq<string>): Option<Buffer>
  {
    if names == [] then Some(Buffer("", 0))
    else
      var n := |names| - 1;
      var before := Instance(names[..n]);
      if before.None? then None else Printed(before.value, if n > 0 then "-" + names[n] else names[n])
  }

  /** All but the last name fit: the length of their join is at most the size of the buffer. */
  predicate LastPieceFits(names: seq<string>)
  {
    |names| > 1 ==> |Dashed(names[..|names| - 1])| <= DATA_MAX_NAME_LEN
  }

  lemma {:induction false} DashedSnoc(names: seq<string>)
    requires names != []
    ensures var n := |names| - 1; Dashed(names) == Dashed(names[..n]) + (if n > 0 then "-" + names[n] else names[n])
  {
    var n := |names| - 1;
    if n == 0 {
      assert "" + names[0] == names[0];
    } else {
      assert Dashed(names[..n]) + "-" + names[n] == Dashed(names[..n]) + ("-" + names[n]);
    }
  }

  lemma {:induction false} PrintedCut(text: string, piece: string)
    requires |text| < DATA_MAX_NAME_LEN
    ensures text + Truncate(piece, DATA_MAX_NAME_LEN - |text|) == Truncate(text + piece, DATA_MAX_NAME_LEN)
  {
  }

  lemma {:induction false} CutFull(text: string, piece: string)
    requires |text| >= DATA_MAX_NAME_LEN
    ensures Truncate(text + piece, DATA_MAX_NAME_LEN) == Truncate(text, DATA_MAX_NAME_LEN)
  {
  }

  /** The exact condition: the loop leaves the joined names, cut to the buffer, if and only if all pieces but the
      last leave the counted length inside it. */
  lemma {:induction false} InstanceExact(names: seq<string>)
    ensures LastPieceFits(names) <==>
            Instance(names) == Some(Buffer(Truncate(Dashed(names), DATA_MAX_NAME_LEN), |Dashed(names)|))
    ensures Instance(names).Some? <==> LastPieceFits(names)
  {
    hide Dashed, Truncate;
    if names == [] {
      NothingDashed();
    } else {
      var n := |names| - 1;
      var before, piece := names[..n], if n > 0 then "-" + names[n] else names[n];
      InstanceExact(before);
      DashedSnoc(names);
      NothingDashed();
      if n > 1 {
        DashedSnoc(before);
        assert before[..n - 1] == names[..n - 1];
      }
      if |Dashed(before)| < DATA_MAX_NAME_LEN {
        Whole(Dashed(before));
        PrintedCut(Dashed(before), piece);
      } else {
        CutFull(Dashed(before), piece);
      }
    }
  }

  /** Two names of 127 characters and any third one do not fit. */
  lemma {:induction false} TooLong(third: string)
    ensures var name := seq(127, _ => 'a'); Instance([name, name, third]).None?
  {
    hide Instance;
    var name := seq(127, _ => 'a');
    var names := [name, name, third];
    assert names[..2] == [name, name] && [name, name][..1] == [name];
    assert |Dashed([name, name])| == 255;
    InstanceExact(names);
  }

  lemma {:induction false} NothingDashed()
    ensures Dashed([]) == "" && Truncate("", DATA_MAX_NAME_LEN) == ""
  {
  }

  lemma {:induction false} Whole(text: string)
    requires |text| < DATA_MAX_NAME_LEN
    ensures Truncate(text, DATA_MAX_NAME_LEN) == text
  {
  }

  lemma {:induction false} InstanceSnoc(names: seq<string>, i: nat)
    requires i <= |names|
    ensures Instance(names[..0]) == Some(Buffer("", 0))
    ensures i < |names| && Instance(names[..i]).Some? ==>
              Instance(names[..i + 1]) ==
              Printed(Instance(names[..i]).value, if i > 0 then "-" + names[i] else names[i])
    ensures i < |names| && Instance(names[..i]).None? ==> Instance(names[..i + 1]).None?
  {
    hide Printed;
    if i < |names| {
      assert names[..i + 1][..i] == names[..i];
    }
  }

  /** The type instance of a submission: the configured one, or the joined names. */
  method TypeInstance(s: Submission) returns (text: string, fault: bool)
    ensures s.key.instance.Some? ==> !fault && text == Truncate(s.key.instance.value, DATA_MAX_NAME_LEN)
    ensures s.key.instance.None? ==> (fault <==> !LastPieceFits(s.names))
    ensures s.key.instance.None? && !fault ==> text == Truncate(Dashed(s.names), DATA_MAX_NAME_LEN)
  {
    hide Dashed, Truncate, LastPieceFits, Instance;
    fault := false;
    if s.key.instance.Some? {
      return Truncate(s.key.instance.value, DATA_MAX_NAME_LEN), false;
    }
    InstanceExact(s.names);
    text := "";
    var length: nat, i := 0, 0;
    InstanceSnoc(s.names, 0);
    while i < |s.names|
      invariant 0 <= i <= |s.names|
      invariant Instance(s.names[..i]) == Some(Buffer(text, length))
    {
      InstanceSnoc(s.names, i);
      var piece := if i > 0 then "-" + s.names[i] else s.names[i];
      if length > DATA_MAX_NAME_LEN {
        StaysOutside(s.names, i + 1);
        return text, true;
      }
      if length < DATA_MAX_NAME_LEN {
        text := text + Truncate(piece, DATA_MAX_NAME_LEN - length);
      }
      length := length + |piece|;
      i := i + 1;
    }
    assert s.names[..i] == s.names;
  }

  lemma {:induction false} StaysOutside(names: seq<string>, i: nat)
    requires i <= |names| && Instance(names[..i]).None?
    ensures Instance(names).None?
    decreases |names| - i
  {
    hide Instance;
    if i == |names| {
      assert names[..i] == names;
    } else {
      InstanceSnoc(names, i);
      StaysOutside(names, i + 1);
    }
  }
}

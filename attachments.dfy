/** Attachment points (ViewerResources/Attachment.cs) and the line format
    that ImportAttachments in ViewerResources/Model.cs reads them from. The
    loop itself is Model.ImportAttachments in model.dfy, proved against Parse. */
module Attachments {
  import opened Wrappers
  import opened Text

  predicate IsMatrix4(m: seq<seq<real>>) {
    |m| == 4 && forall i :: 0 <= i < 4 ==> |m[i]| == 4
  }

  /** OpenTK's Matrix4, indexed [row][column]; entries are reals, not floats. */
  type Matrix4 = m: seq<seq<real>> | IsMatrix4(m)
    witness [[0.0, 0.0, 0.0, 0.0], [0.0, 0.0, 0.0, 0.0], [0.0, 0.0, 0.0, 0.0], [0.0, 0.0, 0.0, 0.0]]

  /** default(Matrix4). */
  const Zero: Matrix4 := [[0.0, 0.0, 0.0, 0.0], [0.0, 0.0, 0.0, 0.0], [0.0, 0.0, 0.0, 0.0], [0.0, 0.0, 0.0, 0.0]]

  const Identity: Matrix4 := [[1.0, 0.0, 0.0, 0.0], [0.0, 1.0, 0.0, 0.0], [0.0, 0.0, 1.0, 0.0], [0.0, 0.0, 0.0, 1.0]]

  /** `m[row, col] = x`. */
  function Set(m: Matrix4, row: nat, col: nat, x: real): (r: Matrix4)
    requires row < 4 && col < 4
    ensures r[row][col] == x
    ensures forall i, j :: 0 <= i < 4 && 0 <= j < 4 && (i != row || j != col) ==> r[i][j] == m[i][j]
  {
    m[row := m[row][col := x]]
  }

  /** The matrix product `a * b`. */
  function Mul(a: Matrix4, b: Matrix4): Matrix4 {
    seq(4, i requires 0 <= i < 4 =>
      seq(4, j requires 0 <= j < 4 =>
        a[i][0] * b[0][j] + a[i][1] * b[1][j] + a[i][2] * b[2][j] + a[i][3] * b[3][j]))
  }

  datatype Attachment = Attachment(name: string, isFirst: bool, isFemale: bool, transform: Matrix4) {

    /** ToString: the attachment is shown by its name. */
    function ToString(): string {
      name
    }

    /** get_world_transform: the attachment's matrix on the left of the parent's. */
    function WorldTransform(parent: Matrix4): Matrix4 {
      Mul(transform, parent)
    }
  }

  /** `new Attachment()`: the record every attachment starts from. */
  function NewAttachment(): (a: Attachment)
    ensures a.ToString() == "<unknown>"
    ensures !a.isFirst && !a.isFemale
    ensures forall i, j :: 0 <= i < 4 && 0 <= j < 4 ==> a.transform[i][j] == 0.0
  {
    Attachment("<unknown>", false, false, Zero)
  }

  /** Under an identity parent the world transform is the attachment's own. */
  lemma WorldTransformOfIdentity(a: Attachment)
    ensures a.WorldTransform(Identity) == a.transform
  {
    var m := a.WorldTransform(Identity);
    forall i | 0 <= i < 4 ensures m[i] == a.transform[i] {
      assert m[i][0] == a.transform[i][0];
      assert m[i][1] == a.transform[i][1];
      assert m[i][2] == a.transform[i][2];
      assert m[i][3] == a.transform[i][3];
    }
  }

  /** A point as a row vector times a matrix, OpenTK's convention. */
  function Transform(p: seq<real>, m: Matrix4): (q: seq<real>)
    requires |p| == 4
    ensures |q| == 4
  {
    seq(4, j requires 0 <= j < 4 => p[0] * m[0][j] + p[1] * m[1][j] + p[2] * m[2][j] + p[3] * m[3][j])
  }

  /** One entry of (p * m) * q, summed in the other order. */
  lemma ReassociateEntry(p0: real, p1: real, p2: real, p3: real, m: Matrix4, c0: real, c1: real, c2: real, c3: real)
    ensures p0 * (m[0][0] * c0 + m[0][1] * c1 + m[0][2] * c2 + m[0][3] * c3)
          + p1 * (m[1][0] * c0 + m[1][1] * c1 + m[1][2] * c2 + m[1][3] * c3)
          + p2 * (m[2][0] * c0 + m[2][1] * c1 + m[2][2] * c2 + m[2][3] * c3)
          + p3 * (m[3][0] * c0 + m[3][1] * c1 + m[3][2] * c2 + m[3][3] * c3)
         == (p0 * m[0][0] + p1 * m[1][0] + p2 * m[2][0] + p3 * m[3][0]) * c0
          + (p0 * m[0][1] + p1 * m[1][1] + p2 * m[2][1] + p3 * m[3][1]) * c1
          + (p0 * m[0][2] + p1 * m[1][2] + p2 * m[2][2] + p3 * m[3][2]) * c2
          + (p0 * m[0][3] + p1 * m[1][3] + p2 * m[2][3] + p3 * m[3][3]) * c3
  {
    var ps := [p0, p1, p2, p3];
    var cs := [c0, c1, c2, c3];
    forall i | 0 <= i < 4
      ensures ps[i] * (m[i][0] * c0 + m[i][1] * c1 + m[i][2] * c2 + m[i][3] * c3)
           == ps[i] * m[i][0] * c0 + ps[i] * m[i][1] * c1 + ps[i] * m[i][2] * c2 + ps[i] * m[i][3] * c3
    {
    }
    forall k | 0 <= k < 4
      ensures (p0 * m[0][k] + p1 * m[1][k] + p2 * m[2][k] + p3 * m[3][k]) * cs[k]
           == p0 * m[0][k] * cs[k] + p1 * m[1][k] * cs[k] + p2 * m[2][k] * cs[k] + p3 * m[3][k] * cs[k]
    {
    }
  }

  /** The world transform moves a point by the attachment's own matrix first
      and by the parent's after it. */
  lemma WorldTransformOrder(a: Attachment, parent: Matrix4, p: seq<real>)
    requires |p| == 4
    ensures Transform(p, a.WorldTransform(parent)) == Transform(Transform(p, a.transform), parent)
  {
    var w, m := a.WorldTransform(parent), a.transform;
    var l, r := Transform(p, w), Transform(Transform(p, m), parent);
    forall j | 0 <= j < 4 ensures l[j] == r[j] {
      ReassociateEntry(p[0], p[1], p[2], p[3], m, parent[0][j], parent[1][j], parent[2][j], parent[3][j]);
    }
  }

  /** A fresh attachment places every point at the origin, whatever its parent. */
  lemma FreshWorldTransform(parent: Matrix4)
    ensures NewAttachment().WorldTransform(parent) == Zero
  {
    var m := NewAttachment().WorldTransform(parent);
    forall i | 0 <= i < 4 ensures m[i] == Zero[i] {
      assert m[i][0] == 0.0 && m[i][1] == 0.0 && m[i][2] == 0.0 && m[i][3] == 0.0;
    }
  }

  /** float.Parse and int.Parse: None where they throw. */
  datatype Numbers = Numbers(parseFloat: string -> Option<real>, parseInt: string -> Option<int>)

  /** Why a line throws: parts[0] or parts[1] is out of range, or a number does not parse. */
  datatype ErrorKind = MissingKey | MissingValue | BadNumber

  /** The exception ImportAttachments throws, with the 0-based line it came from. */
  datatype AttachmentError = AttachmentError(kind: ErrorKind, line: nat)

  /** What a line does: go on with a (possibly changed) record, or commit it. */
  datatype Effect = Keep(atch: Attachment) | Commit

  function Digit(n: nat): char
    requires n < 4
  {
    ('0' as int + n) as char
  }

  /** The key MAT<a><b>. */
  function MatrixKey(a: nat, b: nat): string
    requires a < 4 && b < 4
  {
    "MAT" + [Digit(a)] + [Digit(b)]
  }

  /** The matrix position an upper-cased key writes: MAT<a><b> writes row b, column a. */
  function MatrixSlot(key: string): (slot: Option<(nat, nat)>)
    ensures slot.Some? ==> slot.value.0 < 4 && slot.value.1 < 4
    ensures slot.Some? ==> key == MatrixKey(slot.value.1, slot.value.0)
  {
    if |key| == 5 && key[..3] == "MAT" && '0' <= key[3] <= '3' && '0' <= key[4] <= '3' then
      var slot := ((key[4] as int - '0' as int) as nat, (key[3] as int - '0' as int) as nat);
      assert key == key[..3] + [key[3]] + [key[4]];
      Some(slot)
    else None
  }

  /** Exactly the sixteen keys MAT<a><b> with digits 0 to 3 are matrix keys, and each writes [b, a]. */
  lemma MatrixKeysTransposed(a: nat, b: nat)
    requires a < 4 && b < 4
    ensures MatrixSlot(MatrixKey(a, b)) == Some((b, a))
  {
    var key := MatrixKey(a, b);
    assert key[..3] == "MAT" && key[3] == Digit(a) && key[4] == Digit(b);
  }

  /** One iteration of the loop of ImportAttachments on the record `atch`. Keys
      are compared upper-cased, values as written. */
  function ApplyLine(nums: Numbers, atch: Attachment, line: string): Result<Effect, ErrorKind> {
    var parts := Fields(line);
    if parts == [] then Failure(MissingKey)
    else
      var key := Upper(parts[0]);
      if key == "NAME" then
        if |parts| < 2 then Failure(MissingValue) else Success(Keep(atch.(name := parts[1])))
      else if key == "ISFIRST" then
        if |parts| < 2 then Failure(MissingValue)
        else match nums.parseInt(parts[1])
          case None => Failure(BadNumber)
          case Some(n) => Success(Keep(atch.(isFirst := n != 0)))
      else if key == "ISFEMALE" then
        if |parts| < 2 then Failure(MissingValue) else Success(Keep(atch.(isFemale := parts[1] == "1")))
      else if MatrixSlot(key).Some? then
        if |parts| < 2 then Failure(MissingValue)
        else match nums.parseFloat(parts[1])
          case None => Failure(BadNumber)
          case Some(x) =>
            var (row, col) := MatrixSlot(key).value;
            Success(Keep(atch.(transform := Set(atch.transform, row, col, x))))
      else if key == "END" then Success(Commit)
      else Success(Keep(atch))
  }

  /** The record being built and the records committed so far. */
  datatype Progress = Progress(atch: Attachment, done: seq<Attachment>)

  /** The loop of ImportAttachments over `lines`, the first of which is line `n` of the file. */
  function Parse(nums: Numbers, lines: seq<string>, n: nat, p: Progress): Result<Progress, AttachmentError>
    decreases |lines|
  {
    if lines == [] then Success(p)
    else match ApplyLine(nums, p.atch, lines[0])
      case Failure(kind) => Failure(AttachmentError(kind, n))
      case Success(Commit) => Parse(nums, lines[1..], n + 1, Progress(NewAttachment(), p.done + [p.atch]))
      case Success(Keep(a)) => Parse(nums, lines[1..], n + 1, Progress(a, p.done))
  }

  /** The attachments a whole file yields: the committed records; a record
      still open at the end of the file is dropped. */
  function Import(nums: Numbers, lines: seq<string>): Result<seq<Attachment>, AttachmentError> {
    match Parse(nums, lines, 0, Progress(NewAttachment(), []))
    case Failure(e) => Failure(e)
    case Success(p) => Success(p.done)
  }

  /** Parsing `a + b` is parsing `a` and then `b` from where `a` left off. */
  lemma {:induction false} ParseConcat(nums: Numbers, a: seq<string>, b: seq<string>, n: nat, p: Progress)
    ensures Parse(nums, a + b, n, p) ==
      match Parse(nums, a, n, p)
      case Failure(e) => Failure(e)
      case Success(q) => Parse(nums, b, n + |a|, q)
    decreases |a|
  {
    if a == [] {
      assert a + b == b;
    } else {
      assert (a + b)[0] == a[0] && (a + b)[1..] == a[1..] + b;
      match ApplyLine(nums, p.atch, a[0])
      case Failure(_) =>
      case Success(Commit) => ParseConcat(nums, a[1..], b, n + 1, Progress(NewAttachment(), p.done + [p.atch]));
      case Success(Keep(x)) => ParseConcat(nums, a[1..], b, n + 1, Progress(x, p.done));
    }
  }

  /** A line whose key is END. */
  predicate IsEnd(line: string) {
    Fields(line) != [] && Upper(Fields(line)[0]) == "END"
  }

  function CountEnds(lines: seq<string>): nat {
    if lines == [] then 0 else (if IsEnd(lines[0]) then 1 else 0) + CountEnds(lines[1..])
  }

  /** Records are committed only on END, one per END line. */
  lemma {:induction false} OneRecordPerEnd(nums: Numbers, lines: seq<string>, n: nat, p: Progress)
    requires Parse(nums, lines, n, p).Success?
    ensures var q := Parse(nums, lines, n, p).value;
      && |q.done| == |p.done| + CountEnds(lines)
      && q.done[..|p.done|] == p.done
    decreases |lines|
  {
    if lines != [] {
      match ApplyLine(nums, p.atch, lines[0])
      case Success(Commit) =>
        var p' := Progress(NewAttachment(), p.done + [p.atch]);
        OneRecordPerEnd(nums, lines[1..], n + 1, p');
        var q := Parse(nums, lines, n, p).value;
        assert q.done[..|p.done|] == q.done[..|p'.done|][..|p.done|];
      case Success(Keep(x)) =>
        OneRecordPerEnd(nums, lines[1..], n + 1, Progress(x, p.done));
    }
  }

  /** A file yields exactly as many attachments as it has END lines. */
  lemma AttachmentsCountEnds(nums: Numbers, lines: seq<string>)
    requires Import(nums, lines).Success?
    ensures |Import(nums, lines).value| == CountEnds(lines)
  {
    OneRecordPerEnd(nums, lines, 0, Progress(NewAttachment(), []));
  }

  /** Lines after the last END that parse without error add nothing: the open record is dropped. */
  lemma {:induction false} OpenTailDropped(nums: Numbers, lines: seq<string>, tail: seq<string>)
    requires forall k :: 0 <= k < |tail| ==> !IsEnd(tail[k])
    requires Import(nums, lines + tail).Success?
    ensures Import(nums, lines).Success?
    ensures Import(nums, lines + tail) == Import(nums, lines)
  {
    var p0 := Progress(NewAttachment(), []);
    ParseConcat(nums, lines, tail, 0, p0);
    var q := Parse(nums, lines, 0, p0).value;
    OneRecordPerEnd(nums, tail, |lines|, q);
    NoEndsCounted(tail);
    var r := Parse(nums, tail, |lines|, q).value;
    assert r.done == r.done[..|q.done|];
  }

  lemma {:induction false} NoEndsCounted(lines: seq<string>)
    requires forall k :: 0 <= k < |lines| ==> !IsEnd(lines[k])
    ensures CountEnds(lines) == 0
    decreases |lines|
  {
    if lines != [] {
      assert forall k :: 0 <= k < |lines[1..]| ==> lines[1..][k] == lines[k + 1];
      NoEndsCounted(lines[1..]);
    }
  }

  /** An END line, in any letter case and with or without a value, commits the record. */
  lemma EndIsCommit(nums: Numbers, atch: Attachment, line: string)
    requires IsEnd(line)
    ensures ApplyLine(nums, atch, line) == Success(Commit)
  {
    var key := Upper(Fields(line)[0]);
    assert key == "END";
    assert key != "NAME" && key != "ISFIRST" && key != "ISFEMALE";
    assert MatrixSlot(key).None? by {
      assert |key| == 3;
    }
  }

  /** An END line commits exactly the record built by the lines since the
      previous END, and the next record starts from a fresh attachment. */
  lemma {:induction false} EndCommitsRecord(nums: Numbers, block: seq<string>, end: string, n: nat, p: Progress)
    requires forall k :: 0 <= k < |block| ==> !IsEnd(block[k])
    requires IsEnd(end)
    requires Parse(nums, block, n, p).Success?
    ensures var q := Parse(nums, block, n, p).value;
      Parse(nums, block + [end], n, p) == Success(Progress(NewAttachment(), p.done + [q.atch]))
  {
    var q := Parse(nums, block, n, p).value;
    ParseConcat(nums, block, [end], n, p);
    OneRecordPerEnd(nums, block, n, p);
    NoEndsCounted(block);
    assert q.done == p.done;
    EndIsCommit(nums, q.atch, end);
    assert [end][1..] == [];
  }

  /** A record written as NAME, ISFEMALE and one matrix line, closed by END,
      is imported as one attachment holding exactly those values. */
  lemma OneRecord(nums: Numbers, name: string, female: string, value: string, x: real, a: nat, b: nat,
                  n: nat, done: seq<Attachment>)
    requires a < 4 && b < 4
    requires name != [] && ':' !in name && female != [] && ':' !in female
    requires value != [] && ':' !in value && nums.parseFloat(value) == Some(x)
    ensures Parse(nums, ["NAME: " + name, "ISFEMALE: " + female, MatrixKey(a, b) + ": " + value, "END"], n, Progress(NewAttachment(), done))
         == Success(Progress(NewAttachment(), done + [Attachment(name, false, female == "1", Set(Zero, b, a, x))]))
  {
    var l0, l1, l2, l3 := "NAME: " + name, "ISFEMALE: " + female, MatrixKey(a, b) + ": " + value, "END";
    assert l0 == "NAME" + ": " + name && l1 == "ISFEMALE" + ": " + female;
    var lines := [l0, l1, l2, l3];
    UpperOfUpper("NAME");
    UpperOfUpper("ISFEMALE");
    UpperOfUpper(MatrixKey(a, b));
    UpperOfUpper("END");
    var a0 := NewAttachment();
    var a1 := a0.(name := name);
    var a2 := a1.(isFemale := female == "1");
    var a3 := a2.(transform := Set(a2.transform, b, a, x));
    NameLine(nums, a0, "NAME", name);
    FemaleFlag(nums, a1, "ISFEMALE", female);
    MatrixLineTransposed(nums, a2, MatrixKey(a, b), value, a, b, x);
    FieldsOfKey("END");
    EndIsCommit(nums, a3, l3);
    assert lines[1..] == [l1, l2, l3] && [l1, l2, l3][1..] == [l2, l3] && [l2, l3][1..] == [l3] && [l3][1..] == [];
    calc {
      Parse(nums, lines, n, Progress(a0, done));
      Parse(nums, [l1, l2, l3], n + 1, Progress(a1, done));
      Parse(nums, [l2, l3], n + 2, Progress(a2, done));
      Parse(nums, [l3], n + 3, Progress(a3, done));
      Parse(nums, [], n + 4, Progress(NewAttachment(), done + [a3]));
    }
    assert a3 == Attachment(name, false, female == "1", Set(Zero, b, a, x));
  }

  /** A `MAT<a><b>: value` line, in any letter case, writes transform[b, a] and nothing else. */
  lemma MatrixLineTransposed(nums: Numbers, atch: Attachment, key: string, value: string, a: nat, b: nat, x: real)
    requires a < 4 && b < 4 && Upper(key) == MatrixKey(a, b)
    requires ':' !in value && value != [] && nums.parseFloat(value) == Some(x)
    ensures ApplyLine(nums, atch, key + ": " + value) == Success(Keep(atch.(transform := Set(atch.transform, b, a, x))))
  {
    assert |key| == 5;
    assert ':' !in key by {
      forall k | 0 <= k < 5 ensures key[k] != ':' {
        assert Upper(key)[k] == UpperChar(key[k]);
      }
    }
    FieldsOfPair(key, value);
    MatrixKeysTransposed(a, b);
  }

  /** ISFEMALE is true exactly for the value "1"; the value is not upper-cased. */
  lemma FemaleFlag(nums: Numbers, atch: Attachment, key: string, value: string)
    requires Upper(key) == "ISFEMALE"
    requires ':' !in value && value != []
    ensures ApplyLine(nums, atch, key + ": " + value) == Success(Keep(atch.(isFemale := value == "1")))
  {
    assert ':' !in key by {
      forall k | 0 <= k < |key| ensures key[k] != ':' {
        assert Upper(key)[k] == UpperChar(key[k]);
      }
    }
    FieldsOfPair(key, value);
  }

  /** NAME, in any letter case, sets the name to the value as written. */
  lemma NameLine(nums: Numbers, atch: Attachment, key: string, value: string)
    requires Upper(key) == "NAME"
    requires ':' !in value && value != []
    ensures ApplyLine(nums, atch, key + ": " + value) == Success(Keep(atch.(name := value)))
  {
    assert ':' !in key by {
      forall k | 0 <= k < |key| ensures key[k] != ':' {
        assert Upper(key)[k] == UpperChar(key[k]);
      }
    }
    FieldsOfPair(key, value);
  }

  /** A key that is none of NAME, ISFIRST, ISFEMALE, END or a matrix key is
      ignored, with or without a value. */
  lemma UnknownKeyIgnored(nums: Numbers, atch: Attachment, key: string, value: string)
    requires key != [] && ':' !in key && ':' !in value && value != []
    requires Upper(key) !in {"NAME", "ISFIRST", "ISFEMALE", "END"} && MatrixSlot(Upper(key)).None?
    ensures ApplyLine(nums, atch, key) == Success(Keep(atch))
    ensures ApplyLine(nums, atch, key + ": " + value) == Success(Keep(atch))
  {
    FieldsOfKey(key);
    FieldsOfPair(key, value);
  }

  /** An empty line throws on parts[0], and a NAME, ISFIRST, ISFEMALE or
      matrix key without a value throws on parts[1]. */
  lemma MalformedLines(nums: Numbers, atch: Attachment, key: string)
    requires key != [] && ':' !in key
    requires var k := Upper(key); k in {"NAME", "ISFIRST", "ISFEMALE"} || MatrixSlot(k).Some?
    ensures ApplyLine(nums, atch, "") == Failure(MissingKey)
    ensures ApplyLine(nums, atch, key) == Failure(MissingValue)
    ensures ApplyLine(nums, atch, key + ":") == Failure(MissingValue)
  {
    FieldsOfKey(key);
    assert Fields(key + ":") == [key] by {
      PrefixBeforeSeparator(key, ':', []);
      assert key + ":" == key + [':'] + [];
      assert (key + ":")[|key|..] == ":";
    }
  }
}

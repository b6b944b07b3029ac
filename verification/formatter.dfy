/** `parse_status` (homework.py:87-98): turns one homework record into the
    notification text, and the reading of that text back into the homework
    name and status it reports. */
module Formatter {
  import opened Wrappers
  import opened JsonValue
  import opened Errors
  import opened Catalog
  import Decimal

  const MessagePrefix: string := "Изменился статус проверки работы \""
  const MessageSeparator: string := "\". "

  const MissingStatusMsg: string := "Отсутствует ключ homework_status"
  const UnexpectedStatusMsg: string := "Неожиданный статус"

  /** What an f-string writes for the value of `homework_name`: Python's `str()`.
      For lists and dicts Python writes their `repr`, which this model
      replaces by a fixed placeholder. */
  function NameText(j: Json): string
  {
    match j
    case JNull => "None"
    case JBool(b) => if b then "True" else "False"
    case JNum(n) => Decimal.IntToString(n)
    case JStr(s) => s
    case JArr(_) => "[...]"
    case JObj(_) => "{...}"
  }

  /** The notification for a homework called `name` now in status `st`. */
  function Compose(name: string, st: Status): string
  {
    MessagePrefix + name + MessageSeparator + Verdict(st)
  }

  /** The part of a notification after the homework name. */
  function Tail(st: Status): string
  {
    MessageSeparator + Verdict(st)
  }

  predicate EndsWith(s: string, suffix: string)
  {
    |suffix| <= |s| && s[|s| - |suffix|..] == suffix
  }

  /** If the text after the prefix ends with `st`'s tail, the name between
      them and `st`; otherwise None. */
  function DecodeAs(body: string, st: Status): Option<(string, Status)>
  {
    if EndsWith(body, Tail(st)) then Some((body[..|body| - |Tail(st)|], st)) else None
  }

  /** Reads a notification back into the homework name and status it reports,
      or None when the text is not a notification. */
  function Decode(m: string): Option<(string, Status)>
  {
    var p := |MessagePrefix|;
    if |m| < p || m[..p] != MessagePrefix then None
    else
      var body := m[p..];
      var approved := DecodeAs(body, Approved);
      if approved.Some? then approved
      else
        var reviewing := DecodeAs(body, Reviewing);
        if reviewing.Some? then reviewing
        else DecodeAs(body, Rejected)
  }

  /** The status a record's `status` value names, if it is a catalog key. */
  function StatusOf(j: Json): Option<Status>
  {
    if j.JStr? then Lookup(j.s) else None
  }

  /** `parse_status(homework)`. The record must be a dict for `.get` to
      exist; a missing and a null `status` both read as `None`; a list or
      dict status cannot be looked up in the catalog at all; any other value
      outside the catalog's keys is an unexpected status. */
  function ParseStatus(homework: Json): (r: Result<string, PyError>)
    ensures !homework.JObj? ==> r.Err? && r.error.AttributeError?
    ensures homework.JObj? && Get(homework.fields, "status") == JNull ==> r == Err(KeyError(MissingStatusMsg))
    ensures homework.JObj? && !Hashable(Get(homework.fields, "status")) ==> r.Err? && r.error.TypeError?
    ensures homework.JObj? && Get(homework.fields, "status") != JNull && Hashable(Get(homework.fields, "status")) ==>
              (StatusOf(Get(homework.fields, "status")).None? ==> r == Err(KeyError(UnexpectedStatusMsg)))
    ensures r.Ok? <==> homework.JObj? && exists st: Status :: Get(homework.fields, "status") == JStr(Key(st))
    ensures forall st: Status :: homework.JObj? && Get(homework.fields, "status") == JStr(Key(st))
              ==> r == Ok(Compose(NameText(Get(homework.fields, "homework_name")), st))
  {
    if !homework.JObj? then
      Err(AttributeError("'" + TypeName(homework) + "' object has no attribute 'get'"))
    else
      var name := Get(homework.fields, "homework_name");
      var status := Get(homework.fields, "status");
      if status == JNull then Err(KeyError(MissingStatusMsg))
      else if !Hashable(status) then Err(TypeError("unhashable type: '" + TypeName(status) + "'"))
      else match StatusOf(status)
        case None => Err(KeyError(UnexpectedStatusMsg))
        case Some(st) => Ok(Compose(NameText(name), st))
  }

  /** A notification ends with the tail of its own status and of no other. */
  lemma TailIdentifiesStatus(name: string, st: Status, other: Status)
    ensures EndsWith(name + Tail(st), Tail(other)) <==> other == st
  {
    var s := name + Tail(st);
    assert s[|s| - |Tail(st)|..] == Tail(st);
    if EndsWith(s, Tail(other)) {
      var t := Tail(other);
      assert s[|s| - 1] == t[|t| - 1];
      assert s[|s| - 2] == t[|t| - 2];
      assert s[|s| - 1] == Tail(st)[|Tail(st)| - 1];
      assert s[|s| - 2] == Tail(st)[|Tail(st)| - 2];
    }
  }

  /** Trying one status on the text after the prefix succeeds exactly for
      the status the notification was built with. */
  lemma DecodeAsTail(name: string, st: Status, other: Status)
    ensures DecodeAs(name + Tail(st), other) == if other == st then Some((name, st)) else None
  {
    TailIdentifiesStatus(name, st, other);
    var body := name + Tail(st);
    assert body[..|body| - |Tail(st)|] == name;
  }

  /** A notification is the prefix followed by the name and its status's tail. */
  lemma ComposeSplits(name: string, st: Status)
    ensures Compose(name, st) == MessagePrefix + (name + Tail(st))
  {
    var p, sep, v := MessagePrefix, MessageSeparator, Verdict(st);
    assert p + name + sep + v == p + (name + (sep + v));
  }

  /** Reading a notification back yields the name and status it was built from. */
  lemma DecodeCompose(name: string, st: Status)
    ensures Decode(Compose(name, st)) == Some((name, st))
  {
    var m := Compose(name, st);
    var p := |MessagePrefix|;
    var body := name + Tail(st);
    ComposeSplits(name, st);
    assert m[..p] == MessagePrefix;
    assert m[p..] == body;
    DecodeAsTail(name, st, Approved);
    DecodeAsTail(name, st, Reviewing);
    DecodeAsTail(name, st, Rejected);
  }

  /** What Decode's acceptance says about the text: it starts with the
      prefix, and the rest ends with the decoded status's tail. */
  lemma DecodeAccepts(m: string)
    requires Decode(m).Some?
    ensures |MessagePrefix| <= |m| && m[..|MessagePrefix|] == MessagePrefix
    ensures DecodeAs(m[|MessagePrefix|..], Decode(m).value.1) == Decode(m)
  {
  }

  /** A text that ends with a suffix is the rest followed by that suffix. */
  lemma EndsWithSplits(s: string, suffix: string)
    requires EndsWith(s, suffix)
    ensures s == s[..|s| - |suffix|] + suffix
  {
  }

  /** A text that starts with a prefix is that prefix followed by the rest. */
  lemma StartsWithSplits(s: string, prefix: string)
    requires |prefix| <= |s| && s[..|prefix|] == prefix
    ensures s == prefix + s[|prefix|..]
  {
  }

  /** Every text Decode accepts is the notification for what it decodes to. */
  lemma ComposeDecode(m: string)
    ensures Decode(m).Some? ==> Compose(Decode(m).value.0, Decode(m).value.1) == m
  {
    var d := Decode(m);
    if d.Some? {
      DecodeAccepts(m);
      var body := m[|MessagePrefix|..];
      var name, st := d.value.0, d.value.1;
      EndsWithSplits(body, Tail(st));
      StartsWithSplits(m, MessagePrefix);
      ComposeSplits(name, st);
    }
  }

  /** A successful parse reports exactly the record's name and the catalog
      status its `status` names. */
  lemma ParseStatusRecoversRecord(homework: Json)
    ensures ParseStatus(homework).Ok? ==>
              && homework.JObj?
              && StatusOf(Get(homework.fields, "status")).Some?
              && Decode(ParseStatus(homework).value)
                 == Some((NameText(Get(homework.fields, "homework_name")), StatusOf(Get(homework.fields, "status")).value))
  {
    var r := ParseStatus(homework);
    if r.Ok? {
      var name := NameText(Get(homework.fields, "homework_name"));
      var st :| Get(homework.fields, "status") == JStr(Key(st));
      LookupKey(st);
      assert StatusOf(Get(homework.fields, "status")) == Some(st);
      assert r.value == Compose(name, st);
      DecodeCompose(name, st);
    }
  }

  /** An absent `status` and an explicit `null` one fail the same way. */
  lemma AbsentAndNullStatusAlike(fields: map<string, Json>)
    ensures ParseStatus(JObj(fields - {"status"})) == ParseStatus(JObj(fields["status" := JNull]))
    ensures ParseStatus(JObj(fields - {"status"})) == Err(KeyError(MissingStatusMsg))
  {
  }

  /** Only the `status` and `homework_name` entries of a record matter. */
  lemma ParseStatusReadsTwoFields(a: map<string, Json>, b: map<string, Json>)
    requires Get(a, "status") == Get(b, "status")
    requires Get(a, "homework_name") == Get(b, "homework_name")
    ensures ParseStatus(JObj(a)) == ParseStatus(JObj(b))
  {
  }

  /** The worked example: an approved homework called HW1 is reported under
      that name with the approved verdict. */
  lemma ApprovedExample()
    ensures ParseStatus(JObj(map["status" := JStr("approved"), "homework_name" := JStr("HW1")]))
              == Ok(Compose("HW1", Approved))
  {
    var fields := map["status" := JStr("approved"), "homework_name" := JStr("HW1")];
    assert Get(fields, "status") == JStr(Key(Approved));
  }
}

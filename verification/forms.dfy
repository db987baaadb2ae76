/** What the server actions see of a request: the submitted form entries, the
    error map zod's `flatten().fieldErrors` produces, and the two shapes an
    action can end in (a reply object, or a thrown error). */
module Forms {
  import opened Wrappers
  import opened Schema

  /** A `FormData`: its entries in submission order; a key may repeat. */
  type FormData = seq<(string, string)>

  /** `formData.get(key)`: the first value submitted under `key`, `null` when none. */
  function FormGet(form: FormData, key: string): (r: Option<string>)
    ensures r.Some? ==> |form| > 0
  {
    if |form| == 0 then None
    else if form[0].0 == key then Some(form[0].1)
    else FormGet(form[1..], key)
  }

  /** `get` finds a value exactly when some entry has the key, and the value is
      that of the first such entry. */
  lemma {:induction false} FormGetFindsFirst(form: FormData, key: string)
    ensures FormGet(form, key).Some? <==> exists k :: 0 <= k < |form| && form[k].0 == key
    ensures FormGet(form, key).Some? ==>
              exists k :: 0 <= k < |form| && form[k] == (key, FormGet(form, key).value)
                && forall j :: 0 <= j < k ==> form[j].0 != key
  {
    if |form| > 0 && form[0].0 != key {
      FormGetFindsFirst(form[1..], key);
      var r := FormGet(form[1..], key);
      if r.Some? {
        var k :| 0 <= k < |form[1..]| && form[1..][k] == (key, r.value)
                 && forall j :: 0 <= j < k ==> form[1..][j].0 != key;
        assert form[k + 1] == (key, r.value);
      } else {
        assert forall k :: 1 <= k < |form| ==> form[k] == form[1..][k - 1];
      }
    }
  }

  /** `Object.fromEntries(formData.entries())[key]`: a later entry overwrites an
      earlier one, so the last value submitted under `key` wins. */
  function FormEntry(form: FormData, key: string): (r: Option<string>)
    ensures r.Some? ==> |form| > 0
    decreases |form|
  {
    if |form| == 0 then None
    else if form[|form| - 1].0 == key then Some(form[|form| - 1].1)
    else FormEntry(form[..|form| - 1], key)
  }

  /** `fromEntries` has a value exactly when some entry has the key, and the
      value is that of the last such entry. */
  lemma {:induction false} FormEntryFindsLast(form: FormData, key: string)
    ensures FormEntry(form, key).Some? <==> exists k :: 0 <= k < |form| && form[k].0 == key
    ensures FormEntry(form, key).Some? ==>
              exists k :: 0 <= k < |form| && form[k] == (key, FormEntry(form, key).value)
                && forall j :: k < j < |form| ==> form[j].0 != key
    decreases |form|
  {
    if |form| > 0 && form[|form| - 1].0 != key {
      var init := form[..|form| - 1];
      FormEntryFindsLast(init, key);
      assert forall k :: 0 <= k < |init| ==> form[k] == init[k];
      var r := FormEntry(init, key);
      if r.Some? {
        var k :| 0 <= k < |init| && init[k] == (key, r.value)
                 && forall j :: k < j < |init| ==> init[j].0 != key;
        assert form[k] == (key, r.value);
      }
    }
  }

  /** A form with one entry per key: `get` and `fromEntries` read the same value. */
  lemma GetAgreesWithEntryOnSingleEntries(form: FormData, key: string)
    requires forall i, j :: 0 <= i < j < |form| ==> form[i].0 != form[j].0
    ensures FormGet(form, key) == FormEntry(form, key)
  {
    FormGetFindsFirst(form, key);
    FormEntryFindsLast(form, key);
    if FormGet(form, key).Some? {
      var a := FormGet(form, key).value;
      var b := FormEntry(form, key).value;
      var i :| 0 <= i < |form| && form[i] == (key, a);
      var j :| 0 <= j < |form| && form[j] == (key, b);
      assert i == j;
    }
  }

  /** `formData.append(key, value)` makes `value` what `fromEntries` reads under `key`. */
  lemma EntryAfterAppend(form: FormData, k: string, v: string, key: string)
    ensures FormEntry(form + [(k, v)], key) == if k == key then Some(v) else FormEntry(form, key)
  {
    assert (form + [(k, v)])[..|form|] == form;
  }

  /** ... but `get` keeps reading the first value, so an append shows only under a new key. */
  lemma {:induction false} GetAfterAppend(form: FormData, k: string, v: string, key: string)
    ensures FormGet(form + [(k, v)], key) ==
              if FormGet(form, key).Some? then FormGet(form, key)
              else if k == key then Some(v) else None
  {
    if |form| > 0 {
      assert (form + [(k, v)])[1..] == form[1..] + [(k, v)];
      GetAfterAppend(form[1..], k, v, key);
    }
  }

  /** `formData.append(key, value)`, read back under every key. */
  function Appended(form: FormData, k: string, v: string): (r: FormData)
    ensures forall key :: FormEntry(r, key) == if k == key then Some(v) else FormEntry(form, key)
    ensures forall key :: FormGet(r, key) ==
              if FormGet(form, key).Some? then FormGet(form, key) else if k == key then Some(v) else None
  {
    AppendFacts(form, k, v);
    form + [(k, v)]
  }

  /** An `append` made only when there is a value, as for an optional field. */
  function AppendOpt(form: FormData, k: string, v: Option<string>): (r: FormData)
    ensures forall key :: FormEntry(r, key) == if v.Some? && k == key then v else FormEntry(form, key)
    ensures forall key :: FormGet(r, key) ==
              if FormGet(form, key).Some? then FormGet(form, key) else if k == key then v else None
  {
    if v.Some? then Appended(form, k, v.value) else form
  }

  /** Several `append` calls in order, each made only when it has a value. */
  function AppendedAll(form: FormData, adds: seq<(string, Option<string>)>): (r: FormData)
    ensures |form| <= |r|
    decreases |adds|
  {
    if |adds| == 0 then form
    else AppendedAll(AppendOpt(form, adds[0].0, adds[0].1), adds[1..])
  }

  /** The last present value appended under `key`, if any. */
  function LastAdded(adds: seq<(string, Option<string>)>, key: string): (r: Option<string>)
    ensures r.Some? ==> exists i :: 0 <= i < |adds| && adds[i] == (key, r)
  {
    if |adds| == 0 then None
    else
      var later := LastAdded(adds[1..], key);
      if later.Some? then later
      else if adds[0].0 == key && adds[0].1.Some? then adds[0].1
      else None
  }

  /** The first present value appended under `key`, if any. */
  function FirstAdded(adds: seq<(string, Option<string>)>, key: string): (r: Option<string>)
    ensures r.Some? ==> exists i :: 0 <= i < |adds| && adds[i] == (key, r)
  {
    if |adds| == 0 then None
    else if adds[0].0 == key && adds[0].1.Some? then adds[0].1
    else FirstAdded(adds[1..], key)
  }

  /** A key named by one append only: that append's value is the first and the last. */
  lemma {:induction false} OnlyAdded(adds: seq<(string, Option<string>)>, key: string, i: int)
    requires 0 <= i < |adds| && adds[i].0 == key
    requires forall j :: 0 <= j < |adds| && j != i ==> adds[j].0 != key
    ensures LastAdded(adds, key) == adds[i].1
    ensures FirstAdded(adds, key) == adds[i].1
    decreases |adds|
  {
    if i == 0 {
      NeverAdded(adds[1..], key);
    } else {
      OnlyAdded(adds[1..], key, i - 1);
    }
  }

  lemma {:induction false} NeverAdded(adds: seq<(string, Option<string>)>, key: string)
    requires forall j :: 0 <= j < |adds| ==> adds[j].0 != key
    ensures LastAdded(adds, key).None? && FirstAdded(adds, key).None?
    decreases |adds|
  {
    if |adds| > 0 {
      NeverAdded(adds[1..], key);
    }
  }

  /** After several appends, `fromEntries` reads the last one made under `key`,
      or what it read before when none was. */
  lemma {:induction false} EntryAfterAll(form: FormData, adds: seq<(string, Option<string>)>, key: string)
    ensures FormEntry(AppendedAll(form, adds), key) ==
              if LastAdded(adds, key).Some? then LastAdded(adds, key) else FormEntry(form, key)
    decreases |adds|
  {
    if |adds| > 0 {
      var f := AppendOpt(form, adds[0].0, adds[0].1);
      EntryAfterAll(f, adds[1..], key);
    }
  }

  /** ... while `get` reads what it read before, or else the first one made under `key`. */
  lemma {:induction false} GetAfterAll(form: FormData, adds: seq<(string, Option<string>)>, key: string)
    ensures FormGet(AppendedAll(form, adds), key) ==
              if FormGet(form, key).Some? then FormGet(form, key) else FirstAdded(adds, key)
    decreases |adds|
  {
    if |adds| > 0 {
      var f := AppendOpt(form, adds[0].0, adds[0].1);
      GetAfterAll(f, adds[1..], key);
    }
  }

  lemma AppendFacts(form: FormData, k: string, v: string)
    ensures forall key :: FormEntry(form + [(k, v)], key) == if k == key then Some(v) else FormEntry(form, key)
    ensures forall key :: FormGet(form + [(k, v)], key) ==
              if FormGet(form, key).Some? then FormGet(form, key) else if k == key then Some(v) else None
  {
    forall key
      ensures FormEntry(form + [(k, v)], key) == if k == key then Some(v) else FormEntry(form, key)
      ensures FormGet(form + [(k, v)], key) ==
                if FormGet(form, key).Some? then FormGet(form, key) else if k == key then Some(v) else None
    {
      EntryAfterAppend(form, k, v, key);
      GetAfterAppend(form, k, v, key);
    }
  }

  /** `b.toString()`, as a boolean is written into a form or a query string. */
  function BoolText(b: bool): (r: string)
    ensures r == "true" <==> b
    ensures r != ""
  {
    if b then "true" else "false"
  }

  /** A JavaScript value that is truthy: present and not the empty string. */
  predicate Truthy(v: Option<string>) {
    v.Some? && v.value != ""
  }

  /** `v || null`: an empty string is stored as `null`. */
  function OrNull(v: Option<string>): (r: Option<string>)
    ensures r.Some? <==> Truthy(v)
    ensures r.Some? ==> r == v
  {
    if Truthy(v) then v else None
  }

  // ---------------------------------------------------------------- errors

  /** `error.flatten().fieldErrors`: the messages of each failing top-level key, in issue order. */
  type FieldErrors = map<string, seq<string>>

  /** Records one more issue under `key`. */
  function AddError(errs: FieldErrors, key: string, msg: string): (r: FieldErrors)
    ensures r.Keys == errs.Keys + {key}
    ensures r[key] == (if key in errs then errs[key] else []) + [msg]
    ensures forall k :: k in errs && k != key ==> r[k] == errs[k]
  {
    errs[key := (if key in errs then errs[key] else []) + [msg]]
  }

  /** The issues zod reports for a required string with a minimum length of one:
      "Required" when it is absent, `emptyMsg` when it is "". */
  function RequiredString(v: Option<string>, emptyMsg: string): (r: seq<string>)
    ensures r == [] <==> Truthy(v)
  {
    if v.None? then ["Required"] else if v.value == "" then [emptyMsg] else []
  }

  /** Adds the issues `msgs` under `key` when there are any. */
  function AddErrors(errs: FieldErrors, key: string, msgs: seq<string>): (r: FieldErrors)
    ensures msgs == [] ==> r == errs
    ensures msgs != [] ==> r.Keys == errs.Keys + {key}
                           && r[key] == (if key in errs then errs[key] else []) + msgs
    ensures forall k :: k in errs && k != key ==> r[k] == errs[k]
  {
    if msgs == [] then errs
    else errs[key := (if key in errs then errs[key] else []) + msgs]
  }

  // ---------------------------------------------------------------- results

  /** The `ActionResponse`-like object an action returns; `data` echoes what was
      validated, `record` is the row it wrote. */
  datatype Reply<D, R> = Reply(
    success: bool,
    message: string,
    errors: Option<FieldErrors>,
    data: Option<D>,
    record: Option<R>)

  function Fail<D, R>(message: string): (r: Reply<D, R>)
    ensures !r.success && r.message == message && r.errors.None? && r.record.None?
  {
    Reply(false, message, None, None, None)
  }

  /** A returning action: the reply and the store it leaves behind. */
  datatype Step<D, R> = Step(reply: Reply<D, R>, store: Store)

  /** Why an action threw: a message, or `Validation failed: …` with zod's issues. */
  datatype ThrowError = Message(text: string) | ValidationFailed(errors: FieldErrors)

  /** A throwing action: a value and the new store, or the error it threw (the
      store is then untouched, since every write runs inside one transaction). */
  datatype Thrown<R> = Done(value: R, store: Store) | Throws(error: ThrowError)
}

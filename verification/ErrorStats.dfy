/** Error records, their grouping by type, and the merging of such groups. */
module ErrorStats {
  import opened Ints
  import Decimal
  import Strings

  datatype ErrorType = Unknown | HTTP | HTTP2Protocol | Connection

  function TypeName(t: ErrorType): string {
    match t
    case Unknown => "unknown"
    case HTTP => "http"
    case HTTP2Protocol => "http2-protocol"
    case Connection => "connection"
  }

  datatype ResponseError = ResponseError(
    verb: string, url: string, timestamp: int, duration: real, errorType: ErrorType, code: nat, message: string)

  function ErrorKey(e: ResponseError): string {
    match e.errorType
    case HTTP => TypeName(HTTP) + "/" + Decimal.Print(e.code)
    case t => TypeName(t) + "/" + e.message
  }

  /** Errors are counted together exactly if they have the same type and the same code or message. */
  lemma SameKey(e: ResponseError, f: ResponseError)
    ensures ErrorKey(e) == ErrorKey(f) <==>
              e.errorType == f.errorType && if e.errorType == HTTP then e.code == f.code else e.message == f.message
  {
    var a, b := TypeName(e.errorType), TypeName(f.errorType);
    var x := if e.errorType == HTTP then Decimal.Print(e.code) else e.message;
    var y := if f.errorType == HTTP then Decimal.Print(f.code) else f.message;
    assert ErrorKey(e) == a + "/" + x && ErrorKey(f) == b + "/" + y;
    TypeNames(e.errorType, f.errorType);
    TypeNames(f.errorType, e.errorType);
    if ErrorKey(e) == ErrorKey(f) {
      Strings.FirstSlash(a, x, b, y);
      if e.errorType == HTTP { Decimal.Injective(e.code, f.code); }
    }
  }

  lemma TypeNames(t: ErrorType, u: ErrorType)
    ensures '/' !in TypeName(t)
    ensures TypeName(t) == TypeName(u) ==> t == u
  {
    assert TypeName(Unknown)[0] == 'u' && TypeName(Connection)[0] == 'c';
    assert |TypeName(HTTP)| == 4 && |TypeName(HTTP2Protocol)| == 14;
    assert TypeName(HTTP)[0] == 'h' && TypeName(HTTP2Protocol)[0] == 'h';
  }

  type Stats = map<string, Int32>

  function Get(s: Stats, k: string): Int32 {
    if k in s then s[k] else 0
  }

  /** How often a key occurs. */
  function Count(errs: seq<ResponseError>, k: string): nat {
    if errs == [] then 0 else (if ErrorKey(errs[0]) == k then 1 else 0) + Count(errs[1..], k)
  }

  /** ... and what an int32 counter holds after that many increments. */
  function Count32(errs: seq<ResponseError>, k: string): Int32 {
    if errs == [] then 0 else Add32(if ErrorKey(errs[0]) == k then 1 else 0, Count32(errs[1..], k))
  }

  function KeysOf(errs: seq<ResponseError>): set<string> {
    if errs == [] then {} else {ErrorKey(errs[0])} + KeysOf(errs[1..])
  }

  /** What the statistics mean: for every key that occurs, how often it occurs, as an int32. */
  function StatsOf(errs: seq<ResponseError>): Stats {
    map k | k in KeysOf(errs) :: Count32(errs, k)
  }

  /** The counter is the count unless the count does not fit. */
  lemma {:induction false} CounterIsCount(errs: seq<ResponseError>, k: string)
    requires Count(errs, k) < 0x8000_0000
    ensures Count32(errs, k) == Count(errs, k)
  {
    if errs == [] {
    } else {
      CounterIsCount(errs[1..], k);
    }
  }

  lemma {:induction false} CountConcat(a: seq<ResponseError>, b: seq<ResponseError>, k: string)
    ensures Count32(a + b, k) == Add32(Count32(a, k), Count32(b, k))
    ensures k in KeysOf(a + b) <==> k in KeysOf(a) || k in KeysOf(b)
  {
    if a == [] {
      assert a + b == b;
    } else {
      assert (a + b)[1..] == a[1..] + b;
      CountConcat(a[1..], b, k);
    }
  }

  lemma {:induction false} StatsGet(errs: seq<ResponseError>, k: string)
    ensures Get(StatsOf(errs), k) == Count32(errs, k)
  {
    if errs == [] {
    } else {
      StatsGet(errs[1..], k);
    }
  }

  function Merge(s: Stats, d: Stats): Stats {
    map k | k in s.Keys + d.Keys :: Add32(Get(s, k), Get(d, k))
  }

  /** mergeErrorStat: ranges over d in an unspecified order and adds into s. */
  method MergeErrorStat(s: Stats, d: Stats) returns (r: Stats)
    ensures r == Merge(s, d)
  {
    r := s;
    var todo := d.Keys;
    while todo != {}
      invariant todo <= d.Keys
      invariant forall k :: k in r <==> k in s || (k in d && k !in todo)
      invariant forall k :: k in r ==> r[k] == if k in d && k !in todo then Add32(Get(s, k), d[k]) else s[k]
      decreases todo
    {
      var e :| e in todo;
      r := r[e := Add32(Get(r, e), d[e])];
      todo := todo - {e};
    }
  }

  /** Merging two groupings is the grouping of the concatenated errors, wrap-around included. */
  lemma MergeIsConcat(a: seq<ResponseError>, b: seq<ResponseError>)
    ensures Merge(StatsOf(a), StatsOf(b)) == StatsOf(a + b)
  {
    forall k { MergeAt(a, b, k); }
  }

  lemma MergeAt(a: seq<ResponseError>, b: seq<ResponseError>, k: string)
    ensures k in StatsOf(a + b) <==> k in StatsOf(a) || k in StatsOf(b)
    ensures Count32(a + b, k) == Add32(Get(StatsOf(a), k), Get(StatsOf(b), k))
  {
    CountConcat(a, b, k);
    StatsGet(a, k);
    StatsGet(b, k);
  }

  lemma StatsAppend(errs: seq<ResponseError>, e: ResponseError)
    ensures StatsOf(errs + [e]) == StatsOf(errs)[ErrorKey(e) := Add32(Get(StatsOf(errs), ErrorKey(e)), 1)]
  {
    forall k ensures k in KeysOf(errs + [e]) <==> k in KeysOf(errs) || k == ErrorKey(e)
             ensures Count32(errs + [e], k) == Add32(Count32(errs, k), if k == ErrorKey(e) then 1 else 0)
    {
      CountConcat(errs, [e], k);
      assert [e][1..] == [];
    }
    StatsGet(errs, ErrorKey(e));
  }

  /** BuildErrorStatsGroupByType: one pass over the errors, incrementing a map of int32. */
  method BuildErrorStatsGroupByType(errs: seq<ResponseError>) returns (res: Stats)
    ensures res == StatsOf(errs)
  {
    res := map[];
    for i := 0 to |errs|
      invariant res == StatsOf(errs[..i])
    {
      StatsAppend(errs[..i], errs[i]);
      assert errs[..i + 1] == errs[..i] + [errs[i]];
      var key := ErrorKey(errs[i]);
      res := res[key := Add32(Get(res, key), 1)];
    }
    assert errs[..|errs|] == errs;
  }
}

/**
 The interpreter of hald/device_info.c as it runs: a loop that moves a rule pointer over the
 mapped cache while it changes devices and stores, re-entered for every spawned device.
 */
module DeviceInfo {
  import opened Options
  import opened Bytes
  import opened RuleLayout
  import opened FdiCache
  import opened FdiInterpreter
  import opened FdiEffects

  method RulesMatchAndMergeDevice<P>(h: Handlers<P>, img: Text, n: nat, start: nat, d: Id, w0: World<P>)
    returns (result: Result<P>)
    ensures result == Exec(h, img, n, start, d, w0)
    decreases n, 1
  {
    hide ApplyImage, DiNext, DiJump, ViewAt;
    var w, p := w0, start;
    while true
      invariant Exec(h, img, n, start, d, w0) == Exec(h, img, n, p, d, w)
      decreases |img| - p
    {
      if |img| < SIZEOF_HEADER || |img| < p + SIZEOF_RULE {
        return Fault;
      }
      var rule := ViewAt(img, p);
      var next: Option<nat>;
      match rule.rtype {
        case Match =>
          if !h.holds(rule, d, w) {
            next := DiJump(img, p);
            if next == None || next.value <= p {
              return Fault;
            }
          } else {
            next := DiNext(img, p);
          }
        case Eof =>
          next := DiNext(img, p);
        case Unknown =>
          next := DiJump(img, p);
          if next.Some? {
            if |img| < next.value + SIZEOF_RULE {
              return Fault;
            }
            next := DiNext(img, next.value);
          }
        case _ =>
          var r := HandleMerge(h, img, n, rule, d, w);
          if !r.Done? {
            return r;
          }
          w := r.world;
          next := DiNext(img, p);
      }
      if next == None {
        return Done(w);
      }
      if next.value <= p {
        return Fault;
      }
      p := next.value;
    }
  }

  /** `handle_merge`, with the spawn branch spelled out. */
  method HandleMerge<P>(h: Handlers<P>, img: Text, n: nat, rule: RuleView, d: Id, w: World<P>) returns (r: Result<P>)
    ensures r == ApplyImage(h, img, n, rule, d, w)
    ensures !rule.rtype.Spawn? ==> r.Done? && Merged(w, r.world, h.merge(rule, d, w))
    ensures rule.rtype.Spawn? && Present(w, rule.key) ==> r == Done(w)
    decreases n, 0
  {
    hide SearchAndMerge, Settle, Create, ApplyMerge, Merged, ApplyImage;
    if rule.rtype.Spawn? {
      SpawnSearches(h, img, n, rule, d, w);
    } else {
      MergeTakesEffect(h, img, n, rule, d, w);
    }
    if !rule.rtype.Spawn? {
      return Done(ApplyMerge(w, h.merge(rule, d, w)));
    }
    var found := FindIn(w, w.gdl, rule.key);
    if found == None {
      found := FindIn(w, w.tdl, rule.key);
    }
    if found.Some? {
      return Done(w);
    }
    if n == 0 {
      return TooDeep;
    }
    var spawned := w.next;
    r := DiSearchAndMerge(h, img, n - 1, Information, spawned, Create(h, w, d, rule.key));
    if !r.Done? {
      return r;
    }
    r := DiSearchAndMerge(h, img, n - 1, Policy, spawned, r.world);
    if !r.Done? {
      return r;
    }
    return Done(Settle(h, r.world, spawned));
  }

  method DiSearchAndMerge<P>(h: Handlers<P>, img: Text, n: nat, s: Section, d: Id, w: World<P>) returns (r: Result<P>)
    ensures r == SearchAndMerge(h, img, n, s, d, w)
    decreases n, 2
  {
    hide Exec;
    if |img| < SIZEOF_HEADER {
      return Fault;
    }
    var header := ReadHeader(img);
    if High(header, s) > Low(header, s) {
      r := RulesMatchAndMergeDevice(h, img, n, Low(header, s), d, w);
    } else {
      r := Done(w);
    }
  }
}

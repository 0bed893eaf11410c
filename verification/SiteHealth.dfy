/** Per-site failure counters and the circuit breaker columns of the sites table. */
module SiteHealth {
  import opened Options
  import opened Backoff

  datatype Health = Health(failures: int, open: bool, until: Option<int>, lastSuccess: Option<int>)

  function AfterSuccess(h: Health, now: int): Health {
    Health(0, false, None, Some(now))
  }

  function AfterFailure(h: Health): Health {
    h.(failures := h.failures + 1)
  }

  function Tripped(h: Health, until: int): Health {
    h.(open := true, until := Some(until))
  }

  /** The circuit holds a worker back while it is open and its deadline lies ahead. */
  predicate Blocks(h: Health, now: int) {
    h.open && h.until.Some? && h.until.value > now
  }

  class SiteTable {
    var rows: map<int, Health>

    method RecordSiteSuccess(site: int, now: int)
      modifies this
      ensures rows == if site in old(rows) then old(rows)[site := AfterSuccess(old(rows)[site], now)] else old(rows)
      ensures rows.Keys == old(rows).Keys
      ensures forall i :: i in rows ==> rows[i] == if i == site then Health(0, false, None, Some(now)) else old(rows)[i]
    {
      if site in rows {
        rows := rows[site := Health(0, false, None, Some(now))];
      }
    }

    /** The new failure count, or nothing when the site has no row. */
    method RecordSiteFailure(site: int) returns (n: Option<int>)
      modifies this
      ensures n.None? <==> site !in old(rows)
      ensures n.None? ==> rows == old(rows)
      ensures n.Some? ==> rows == old(rows)[site := AfterFailure(old(rows)[site])] && n.value == rows[site].failures
      ensures rows.Keys == old(rows).Keys && forall i :: i in rows && i != site ==> rows[i] == old(rows)[i]
      ensures site in rows ==>
                n == Some(old(rows)[site].failures + 1) && rows[site] == old(rows)[site].(failures := n.value)
    {
      if site !in rows {
        return None;
      }
      rows := rows[site := rows[site].(failures := rows[site].failures + 1)];
      n := Some(rows[site].failures);
    }

    method SetCircuitOpen(site: int, until: int)
      modifies this
      ensures rows == if site in old(rows) then old(rows)[site := Tripped(old(rows)[site], until)] else old(rows)
      ensures rows.Keys == old(rows).Keys && forall i :: i in rows && i != site ==> rows[i] == old(rows)[i]
      ensures site in rows ==>
                rows[site] == Health(old(rows)[site].failures, true, Some(until), old(rows)[site].lastSuccess)
    {
      if site in rows {
        rows := rows[site := rows[site].(open := true, until := Some(until))];
      }
    }

    /** An open circuit whose deadline has passed reads as closed. */
    method CircuitStatus(site: int, now: int) returns (open: bool, until: Option<int>)
      ensures site in rows ==> until == rows[site].until
      ensures open <==> site in rows && rows[site].open && !(rows[site].until.Some? && rows[site].until.value < now)
    {
      if site !in rows {
        return false, None;
      }
      var h := rows[site];
      if h.open && h.until.Some? && h.until.value < now {
        return false, h.until;
      }
      return h.open, h.until;
    }

    /** Counts a failure and, from the threshold on, opens the circuit for the cooldown of the new count. */
    method SiteFailed(site: int, poll: int, threshold: int, now: int) returns (n: Option<int>)
      requires threshold >= 1
      requires site in rows ==> rows[site].failures >= 0
      modifies this
      ensures n.None? <==> site !in old(rows)
      ensures n.None? ==> rows == old(rows)
      ensures n.Some? ==>
                var h := AfterFailure(old(rows)[site]);
                n.value == h.failures
                && rows == old(rows)[site := if n.value < threshold then h
                                             else Tripped(h, now + CircuitCooldown(poll, n.value))]
      ensures rows.Keys == old(rows).Keys && forall i :: i in rows && i != site ==> rows[i] == old(rows)[i]
      ensures site in rows ==>
                var h := old(rows)[site];
                && n == Some(h.failures + 1)
                && rows[site] == if h.failures + 1 < threshold then h.(failures := h.failures + 1)
                                 else Health(h.failures + 1, true, Some(now + CircuitCooldown(poll, h.failures + 1)),
                                             h.lastSuccess)
    {
      n := RecordSiteFailure(site);
      if n.Some? && n.value >= threshold {
        SetCircuitOpen(site, now + CircuitCooldown(poll, n.value));
      }
    }

    /** How long a worker waits before it may claim: nothing unless the circuit blocks. */
    method CircuitWait(site: int, now: int) returns (wait: int)
      ensures wait == if site in rows && Blocks(rows[site], now) then rows[site].until.value - now else 0
      ensures wait == if site in rows && rows[site].open && rows[site].until.Some? && rows[site].until.value > now
                      then rows[site].until.value - now else 0
      ensures site in rows ==> !Blocks(rows[site], now + wait)
    {
      var open, until := CircuitStatus(site, now);
      if !open {
        return 0;
      }
      if until.Some? && until.value > now {
        return until.value - now;
      }
      return 0;
    }
  }
}

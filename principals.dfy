/**
 * The claim set of an authenticated principal (System.Security.Claims) as far as
 * the core reads it: `FindFirst(type)` and the `??` chains built from it.
 */
module Principals {
  import opened Wrappers

  /** One claim of the principal: its type and its value. */
  datatype PrincipalClaim = PrincipalClaim(claimType: string, value: string)

  /** The principal's claims, in order (all identities flattened). */
  type Principal = seq<PrincipalClaim>

  /** ClaimTypes.NameIdentifier. */
  const NameIdentifierClaimType := "http://schemas.xmlsoap.org/ws/2005/05/identity/claims/nameidentifier"
  /** ClaimTypes.Email. */
  const EmailClaimType := "http://schemas.xmlsoap.org/ws/2005/05/identity/claims/emailaddress"
  /** The Microsoft object-identifier claim, fully qualified. */
  const ObjectIdentifierClaimType := "http://schemas.microsoft.com/identity/claims/objectidentifier"

  /** Upper-casing of ASCII letters; every other character is left alone. */
  function FoldCase(c: char): char {
    if 'a' <= c <= 'z' then (c as int - 32) as char else c
  }

  /** Claim types are compared ordinally, ignoring case. */
  predicate SameClaimType(a: string, b: string) {
    |a| == |b| && forall i :: 0 <= i < |a| ==> FoldCase(a[i]) == FoldCase(b[i])
  }

  /** Position `i` holds the first claim of type `claimType`. */
  ghost predicate IsFirstOfType(p: Principal, claimType: string, i: int) {
    && 0 <= i < |p|
    && SameClaimType(p[i].claimType, claimType)
    && forall j :: 0 <= j < i ==> !SameClaimType(p[j].claimType, claimType)
  }

  /** `claimTypes[k]` is the first of the listed claim types that the principal carries. */
  ghost predicate IsFirstPresent(p: Principal, claimTypes: seq<string>, k: int) {
    && 0 <= k < |claimTypes|
    && FindFirst(p, claimTypes[k]).Some?
    && forall j :: 0 <= j < k ==> FindFirst(p, claimTypes[j]).None?
  }

  /**
   * FindFirst(claimType)?.Value: the value of the first claim of that type, or
   * null when the principal has none.
   */
  function FindFirst(p: Principal, claimType: string): (r: Option<string>)
    ensures r.None? <==> forall i :: 0 <= i < |p| ==> !SameClaimType(p[i].claimType, claimType)
    ensures r.Some? ==> exists i :: IsFirstOfType(p, claimType, i) && p[i].value == r.value
  {
    if p == [] then None
    else if SameClaimType(p[0].claimType, claimType) then Some(p[0].value)
    else
      var rest := FindFirst(p[1..], claimType);
      assert forall i :: 1 <= i < |p| ==> p[i] == p[1..][i - 1];
      rest
  }

  /**
   * `FindFirst(t0)?.Value ?? FindFirst(t1)?.Value ?? ...`: the value found for the
   * first claim type that is PRESENT, even when that value is empty.
   */
  function FirstPresent(p: Principal, claimTypes: seq<string>): (r: Option<string>)
    ensures r.None? <==> forall k :: 0 <= k < |claimTypes| ==> FindFirst(p, claimTypes[k]).None?
    ensures r.Some? ==> exists k :: IsFirstPresent(p, claimTypes, k) && FindFirst(p, claimTypes[k]) == r
  {
    if claimTypes == [] then None
    else
      match FindFirst(p, claimTypes[0])
      case Some(v) => Some(v)
      case None =>
        var rest := FirstPresent(p, claimTypes[1..]);
        assert forall k :: 1 <= k < |claimTypes| ==> claimTypes[k] == claimTypes[1..][k - 1];
        FirstPresentShifts(p, claimTypes, rest);
        rest
  }

  /** A claim type found first among the later ones is found first among all when the first is absent. */
  lemma {:induction false} FirstPresentShifts(p: Principal, claimTypes: seq<string>, rest: Option<string>)
    requires claimTypes != [] && FindFirst(p, claimTypes[0]).None?
    requires rest.Some? ==> exists k :: IsFirstPresent(p, claimTypes[1..], k) && FindFirst(p, claimTypes[1..][k]) == rest
    ensures rest.Some? ==> exists k :: IsFirstPresent(p, claimTypes, k) && FindFirst(p, claimTypes[k]) == rest
  {
    if rest.Some? {
      var k :| IsFirstPresent(p, claimTypes[1..], k) && FindFirst(p, claimTypes[1..][k]) == rest;
      assert forall j :: 1 <= j < |claimTypes| ==> claimTypes[j] == claimTypes[1..][j - 1];
      assert IsFirstPresent(p, claimTypes, k + 1);
    }
  }

  /**
   * Precedence: when the claim type at position `k` is present and every earlier
   * one is absent, its value is the result, whatever the later claims hold.
   */
  lemma {:induction false} FirstPresentPicksEarliest(p: Principal, claimTypes: seq<string>, k: nat)
    requires IsFirstPresent(p, claimTypes, k)
    ensures FirstPresent(p, claimTypes) == FindFirst(p, claimTypes[k])
  {
    if k > 0 {
      assert FindFirst(p, claimTypes[0]).None?;
      assert claimTypes[1..][k - 1] == claimTypes[k];
      FirstPresentPicksEarliest(p, claimTypes[1..], k - 1);
    }
  }

  /** A two-entry `??` chain: the first type when present, otherwise whatever the second finds. */
  lemma {:induction false} FirstOfTwoPresent(p: Principal, preferred: string, fallback: string)
    ensures FindFirst(p, preferred).Some? ==> FirstPresent(p, [preferred, fallback]) == FindFirst(p, preferred)
    ensures FindFirst(p, preferred).None? ==> FirstPresent(p, [preferred, fallback]) == FindFirst(p, fallback)
  {
    if FindFirst(p, preferred).Some? {
      FirstPresentPicksEarliest(p, [preferred, fallback], 0);
    } else if FindFirst(p, fallback).Some? {
      FirstPresentPicksEarliest(p, [preferred, fallback], 1);
    }
  }
}

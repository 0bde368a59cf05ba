/**
 * `AFAKulcsEnum`: the Hungarian VAT rates an invoice line can carry, as a
 * string-backed enum. Each case stands for one fixed label; the labels are
 * what is sent to the invoicing service.
 */
module VatRate {
  import opened Wrappers

  datatype Rate =
    | Eighteen | Five | TwentySeven
    // exempt rates
    | Aam | Tam | Kba | Kbauk | Eam | Nam
    // rates outside the scope of the VAT act
    | Atk | Eufad37 | Eufade | Eue | Ho
    | Foa | Kafa | AfaMentes | NonRefundableVat | RefundableVat

  /** The backing string of each case. */
  function Label(r: Rate): string
  {
    match r
    case Eighteen => "18%"
    case Five => "5%"
    case TwentySeven => "27%"
    case Aam => "0% - AAM"
    case Tam => "0% - TAM"
    case Kba => "0% - KBA"
    case Kbauk => "0% - KBAUK"
    case Eam => "0% - EAM"
    case Nam => "0% - NAM"
    case Atk => "0% - \U{C1}TK"
    case Eufad37 => "0% - EUFAD37"
    case Eufade => "0% - EUFADE"
    case Eue => "0% - EUE"
    case Ho => "0% - HO"
    case Foa => "0% - FOA"
    case Kafa => "0% - K.AFA"
    case AfaMentes => "0% - AFAMENTES"
    case NonRefundableVat => "0% - NONREFUNDABLE_VAT"
    case RefundableVat => "0% - REFUNDABLE_VAT"
  }

  /** `AFAKulcsEnum::cases()`: every case once, in declaration order. */
  function Cases(): (r: seq<Rate>)
    ensures |r| == 19
  {
    [Eighteen, Five, TwentySeven, Aam, Tam, Kba, Kbauk, Eam, Nam,
     Atk, Eufad37, Eufade, Eue, Ho, Foa, Kafa, AfaMentes, NonRefundableVat, RefundableVat]
  }

  /** The cases list every case, and each exactly once. */
  lemma CasesComplete(r: Rate)
    ensures r in Cases()
    ensures forall i, j :: 0 <= i < j < |Cases()| ==> Cases()[i] != Cases()[j]
  {
  }

  /** Distinct cases have distinct labels. */
  lemma LabelInjective(r: Rate, q: Rate)
    ensures Label(r) == Label(q) ==> r == q
  {
  }

  /** The three taxed rates; every other label is an exempt `0% - ` one. */
  predicate Taxed(r: Rate)
  {
    r == Eighteen || r == Five || r == TwentySeven
  }

  /** The label's text starts with `0% - ` exactly for the untaxed cases, and no label is `0%` or `FAD`. */
  lemma LabelShape(r: Rate)
    ensures !Taxed(r) <==> |Label(r)| >= 5 && Label(r)[..5] == "0% - "
    ensures Label(r) != "0%" && Label(r) != "FAD"
  {
  }

  /** The first case among `cs` whose label is `s`. */
  function FindLabel(cs: seq<Rate>, s: string): (r: Option<Rate>)
    ensures r.Some? ==> r.value in cs && Label(r.value) == s
    ensures r.None? ==> forall c :: c in cs ==> Label(c) != s
  {
    if cs == [] then None
    else if Label(cs[0]) == s then Some(cs[0])
    else FindLabel(cs[1..], s)
  }

  /** `AFAKulcsEnum::tryFrom($s)`: the case backed by `s`, if there is one. */
  function TryFrom(s: string): (r: Option<Rate>)
    ensures r.Some? <==> exists c: Rate :: Label(c) == s
    ensures r.Some? ==> Label(r.value) == s
  {
    var r := FindLabel(Cases(), s);
    if r.None? then
      assert forall c: Rate :: Label(c) != s by {
        forall c: Rate ensures Label(c) != s {
          CasesComplete(c);
        }
      }
      r
    else r
  }

  /** Looking up a case's own label gives the case back. */
  lemma TryFromLabel(r: Rate)
    ensures TryFrom(Label(r)) == Some(r)
  {
    var q := TryFrom(Label(r));
    LabelInjective(q.value, r);
  }
}

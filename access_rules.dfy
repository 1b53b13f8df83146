/** The permission and validation predicates of src/shared/utils.js, and the
    display names of the payment methods. */
module AccessRules {
  import opened JsValues
  import opened PosRecords

  /** `canUserVoidSale(userRole)`. */
  predicate CanUserVoidSale(role: string)
    ensures CanUserVoidSale(role) <==> CanUserApproveAuth(role) || role == "cajero" || role == "administrativo"
  {
    role in ["cajero", "administrativo", "gerencia", "subgerente"]
  }

  /** `canUserApproveAuth(userRole)`. */
  predicate CanUserApproveAuth(role: string)
    ensures CanUserApproveAuth(role) ==> role != "cajero" && role != "administrativo"
  {
    role in ["gerencia", "subgerente"]
  }

  /** Whoever may approve a request may also void a sale; a cashier may void
      but not approve. */
  lemma ApproversCanVoid(role: string)
    ensures CanUserApproveAuth(role) ==> CanUserVoidSale(role)
    ensures CanUserVoidSale("cajero") && !CanUserApproveAuth("cajero")
    ensures CanUserVoidSale("administrativo") && !CanUserApproveAuth("administrativo")
  {
  }

  /** `validateAuthorizationData(auth)`, as the truthiness of what it
      returns. */
  function ValidateAuthorizationData(auth: Authorization): (r: bool)
    ensures !Present(auth.kind) || !Present(auth.requestedBy) || auth.data.None? ==> !r
    ensures Present(auth.kind) && Present(auth.requestedBy) && auth.data.Some? ==>
      var d := auth.data.value;
      && (auth.kind == Some(ChangePin) ==> (r <==> Present(d.newPin) && Present(d.profileId) && Present(d.role)))
      && (auth.kind == Some(ProductChange) ==> (r <==> Present(d.productId) && d.changes.Some?))
      && (auth.kind == Some(DeleteProfile) ==> (r <==> Present(d.profileId) && Present(d.role) && Present(d.localId)))
      && (auth.kind.value != ChangePin && auth.kind.value != ProductChange && auth.kind.value != DeleteProfile ==> r)
  {
    if !Present(auth.kind) || !Present(auth.requestedBy) || auth.data.None? then false
    else
      var d := auth.data.value;
      if auth.kind.value == ChangePin then Present(d.newPin) && Present(d.profileId) && Present(d.role)
      else if auth.kind.value == ProductChange then Present(d.productId) && d.changes.Some?
      else if auth.kind.value == DeleteProfile then Present(d.profileId) && Present(d.role) && Present(d.localId)
      else true
  }

  /** A complete request of a known type passes. */
  lemma CompleteRequestsPass(auth: Authorization)
    requires Present(auth.kind) && Present(auth.requestedBy) && auth.data.Some?
    requires
      var d := auth.data.value;
      Present(d.newPin) && Present(d.profileId) && Present(d.role) && Present(d.localId) &&
      Present(d.productId) && d.changes.Some?
    ensures ValidateAuthorizationData(auth)
  {
  }

  /** A validated PIN change or profile deletion names its role, so applying
      it looks up that role and not the key "undefined". */
  lemma ValidatedRoleIsNamed(auth: Authorization)
    requires ValidateAuthorizationData(auth)
    requires auth.kind == Some(ChangePin) || auth.kind == Some(DeleteProfile)
    ensures auth.data.value.role.Some? && Text(auth.data.value.role) == auth.data.value.role.value
  {
  }

  // ---------------------------------------------------------------------
  // Payment method names
  // ---------------------------------------------------------------------

  /** UTF-8 text decoded a second time as Latin-1: an 'Ã' followed by a
      character of the range U+0080..U+00BF, as 'é' becomes 'Ã©'. */
  predicate Mojibake(s: string) {
    exists i :: 0 <= i < |s| - 1 && s[i] == '\U{00C3}' && '\U{0080}' <= s[i + 1] <= '\U{00BF}'
  }

  /** The label table of `getPaymentMethodName` as the file spells it: the
      two accented labels carry the double-encoded 'é'. */
  function PaymentLabelsAsWritten(): map<string, string> {
    map[
      "efectivo" := "Efectivo",
      "mercadopago" := "Mercado Pago",
      "debito" := "D\U{00C3}\U{00A9}bito",
      "credito" := "Cr\U{00C3}\U{00A9}dito",
      "transferencia" := "Transferencia",
      "mixto" := "Mixto"]
  }

  /** The label table with the accented labels spelt as intended. */
  function PaymentLabels(): map<string, string> {
    map[
      "efectivo" := "Efectivo",
      "mercadopago" := "Mercado Pago",
      "debito" := "D\U{00E9}bito",
      "credito" := "Cr\U{00E9}dito",
      "transferencia" := "Transferencia",
      "mixto" := "Mixto"]
  }

  /** `methods[name] || name` over the table as written. */
  function PaymentMethodNameAsWritten(name: string): (r: string)
    ensures name !in PaymentLabelsAsWritten() ==> r == name
  {
    if name in PaymentLabelsAsWritten() then PaymentLabelsAsWritten()[name] else name
  }

  /** The as-written table shows "DÃ©bito" for a debit card payment. */
  lemma DebitLabelAsWrittenIsGarbled()
    ensures Mojibake(PaymentMethodNameAsWritten("debito"))
    ensures Mojibake(PaymentMethodNameAsWritten("credito"))
  {
    var d := PaymentMethodNameAsWritten("debito");
    assert d[1] == '\U{00C3}' && d[2] == '\U{00A9}';
    var c := PaymentMethodNameAsWritten("credito");
    assert c[2] == '\U{00C3}' && c[3] == '\U{00A9}';
  }

  /** `getPaymentMethodName(name)` with the intended labels: a known name
      gets its label, any other name is shown as it is. */
  function PaymentMethodName(name: string): (r: string)
    ensures name !in PaymentLabels() ==> r == name
    ensures name in PaymentLabels() ==> r != "" && r == PaymentLabels()[name]
  {
    if name in PaymentLabels() then PaymentLabels()[name] else name
  }

  /** No label is garbled: a method name that is clean gets a clean name. */
  lemma PaymentNamesAreClean(name: string)
    requires !Mojibake(name)
    ensures !Mojibake(PaymentMethodName(name))
    ensures PaymentMethodName("debito") == "D\U{00E9}bito" && PaymentMethodName("credito") == "Cr\U{00E9}dito"
  {
    if name in PaymentLabels() {
      var r := PaymentMethodName(name);
      forall i | 0 <= i < |r| ensures r[i] != '\U{00C3}' {
      }
    }
  }

  /** The two tables differ only in the two accented labels. */
  lemma AsWrittenDiffersOnlyInAccents(name: string)
    requires name != "debito" && name != "credito"
    ensures PaymentMethodNameAsWritten(name) == PaymentMethodName(name)
  {
  }
}

/** Keys made of a tenant and an id. The canonical text of such a pair identifies it (`JsonRoundTrip.TupleKeysInjective`). */
module Keys {
  import opened Utf16

  datatype Key = Key(tenant: Text, id: Text)
}

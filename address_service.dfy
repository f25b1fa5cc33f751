/** verifyAddressOwner: look an address up by id and check that the caller owns it. */
module AddressService {
  import opened Domain

  const AddressNotFoundMessage := "Endereço não encontrado"

  /** The address, or the error and status to answer with. */
  datatype Ownership = Owned(address: Address) | Refused(error: string, status: int)

  /**
   * verifyAddressOwner over the address table, keyed by address id
   * (`findUnique` by id). A missing address is reported before ownership is
   * looked at; the caller's own address comes back as stored.
   */
  function VerifyAddressOwner(addresses: map<Id, Address>, userId: Id, addressId: Id): (r: Ownership)
    ensures addressId !in addresses ==> r == Refused(AddressNotFoundMessage, 404)
    ensures addressId in addresses && addresses[addressId].userId != userId ==> r == Refused(UnauthorizedMessage, 403)
    ensures r.Owned? <==> addressId in addresses && addresses[addressId].userId == userId
    ensures r.Owned? ==> r.address == addresses[addressId] && r.address.userId == userId
  {
    if addressId !in addresses then Refused(AddressNotFoundMessage, 404)
    else
      var address := addresses[addressId];
      if address.userId != userId then Refused(UnauthorizedMessage, 403)
      else Owned(address)
  }

  /** At most one user passes the check for a given address. */
  lemma OwnerExclusive(addresses: map<Id, Address>, u1: Id, u2: Id, addressId: Id)
    requires VerifyAddressOwner(addresses, u1, addressId).Owned?
    requires VerifyAddressOwner(addresses, u2, addressId).Owned?
    ensures u1 == u2
  {
  }

  /** Whether the address exists does not depend on the caller: every caller gets 404 or nobody does. */
  lemma NotFoundForEveryone(addresses: map<Id, Address>, u1: Id, u2: Id, addressId: Id)
    ensures VerifyAddressOwner(addresses, u1, addressId).Refused? && VerifyAddressOwner(addresses, u1, addressId).status == 404
        <==> VerifyAddressOwner(addresses, u2, addressId).Refused? && VerifyAddressOwner(addresses, u2, addressId).status == 404
  {
  }
}

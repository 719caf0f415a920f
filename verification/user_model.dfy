/** The user record the API returns, field for field. */
module UserModel {

  datatype UserGeo = UserGeo(lat: string, lng: string)

  datatype UserAddress = UserAddress(street: string, suite: string, city: string, zipcode: string, geo: UserGeo)

  datatype UserCompany = UserCompany(name: string, catchPhrase: string, bs: string)

  datatype User = User(
    id: int,
    name: string,
    username: string,
    email: string,
    address: UserAddress,
    phone: string,
    website: string,
    company: UserCompany)

}

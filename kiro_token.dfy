/** The fields of `KiroTokenData` that the usage checker and the web OAuth handler read
    and write (its declaration is not part of this model). */
module KiroToken {
  datatype KiroTokenData = KiroTokenData(
    accessToken: string,
    refreshToken: string,
    profileArn: string,
    expiresAt: string,
    authMethod: string,
    provider: string,
    clientID: string,
    clientSecret: string,
    email: string,
    region: string,
    startURL: string)
}

/**
  Location resolution: every configured location is trimmed and each
  occurrence of the `${fosnr}` token in it becomes the survey number.
 */
module Resolution {
  import opened JavaStrings

  /** The token a configured location may carry for the survey number. */
  const Placeholder: string := "${fosnr}"

  /** The configuration as the parser delivers it: theme key to location. */
  type Config = map<string, string>

  /** Every key is already free of surrounding blanks, so the trimming pass
      rewrites values in place and never inserts a key. */
  predicate KeysTrimmed(files: Config) {
    forall k :: k in files ==> Trim(k) == k
  }

  /** One configured value after trimming and placeholder substitution: the
      trimmed value cut at every token and re-joined with the survey number. */
  function ResolveValue(value: string, fosnr: string): (r: string)
    ensures r == Join(Split(Trim(value), Placeholder), fosnr)
    ensures !Contains(Trim(value), Placeholder) ==> r == Trim(value)
  {
    ReplaceJoinsSplit(Trim(value), Placeholder, fosnr);
    Replace(Trim(value), Placeholder, fosnr)
  }

  /** The resolution loop over the configuration map: the same keys, each
      value trimmed and with every token replaced by the survey number. */
  function Resolve(files: Config, fosnr: string): (resolved: Config)
    requires KeysTrimmed(files)
    ensures resolved.Keys == files.Keys
    ensures forall k :: k in files ==> resolved[k] == Join(Split(Trim(files[k]), Placeholder), fosnr)
    ensures forall k :: k in files && !Contains(Trim(files[k]), Placeholder) ==> resolved[k] == Trim(files[k])
  {
    map k | k in files :: ResolveValue(files[k], fosnr)
  }

  /**
    A value without the token resolves to its trimmed self; a value with it is
    the trimmed value cut at every matched token and re-joined with the
    survey number, so no occurrence is left behind and nothing else changes.
   */
  lemma ResolveReplacesEveryToken(files: Config, fosnr: string, k: string)
    requires KeysTrimmed(files)
    requires k in files
    ensures var v := Trim(files[k]);
      && Join(Split(v, Placeholder), Placeholder) == v
      && Resolve(files, fosnr)[k] == Join(Split(v, Placeholder), fosnr)
      && (!Contains(v, Placeholder) ==> Resolve(files, fosnr)[k] == v)
  {
    ReplaceJoinsSplit(Trim(files[k]), Placeholder, Placeholder);
  }
}
